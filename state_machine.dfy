/**
 * The DSL machine (`StateMachine.ConcreteMachine`): a registry from events to
 * sets of transitions, a dispatch step that keeps the transitions of the
 * event's bucket whose incoming state hashes like the current state and fires
 * one of them, and the watchdog protocol that resolves a deferred transition.
 *
 * States and events are values of the type parameters `S` and `E`. Swift
 * compares states through `hashValue`; the machine therefore carries the hash
 * of its state type as a function, about which nothing is assumed.
 */
module StateMachine {
  import opened Wrappers

  /** `StateMachine.Errors`: what a completion can receive besides a state. */
  datatype Errors = Cancelled | MachineUnavailable

  /** `Result<any State, Error>` as handed to a completion. */
  datatype Outcome<S> = Success(state: S) | Failure(error: Errors)

  /**
   * A transition of the repository: `Immediate` is a `DefaultTransition`
   * (`MatterTransition`), `Deferred` an `AsyncTransition`
   * (`AsyncMatterTransition`). Datatype equality is the `==` both types
   * define: componentwise on event, incoming and outgoing, blind to the
   * completion closure; two values of different kinds are never equal, as
   * two `AnyHashable`s of different base types are not.
   */
  datatype Transition<S, E> =
    | Immediate(event: E, incoming: S, outgoing: S)
    | Deferred(event: E, incoming: S, outgoing: S)

  /** The `transitions` dictionary, keyed by `AnyHashable(event)`. */
  type Registry<S(==), E(==)> = map<E, set<Transition<S, E>>>

  /** What one dispatch makes observable, in the order it happens. */
  datatype Effect<S, E> =
    | Completed(result: Outcome<S>)                // the caller's completion ran
    | Transitioned(transition: Transition<S, E>, state: S) // the transition's onTransitioned ran
    | CancelRequested(target: Transition<S, E>)      // transition.cancel() was called
    | QueueReleased                                // group.leave(): the serial queue may go on

  /** `DefaultTransition.process()`; a `MatterTransition` produces its outgoing state. */
  function Process<S(==), E(==)>(t: Transition<S, E>): S
    requires t.Immediate?
  {
    t.outgoing
  }

  // ---------------------------------------------------------------------------
  // The registry

  /** `transitions[key]`, with a missing key read as the empty set. */
  function Bucket<S(==), E(==)>(reg: Registry<S, E>, event: E): set<Transition<S, E>> {
    if event in reg then reg[event] else {}
  }

  /** Every transition stored under a key has that key as its event. */
  ghost predicate KeyedBy<S, E>(reg: Registry<S, E>) {
    forall k, t :: k in reg && t in reg[k] ==> t.event == k
  }

  /** `reg` holds exactly the transitions of `list`, each under its own event. */
  ghost predicate Indexes<S, E>(reg: Registry<S, E>, list: seq<Transition<S, E>>) {
    && KeyedBy(reg)
    && (forall t :: t in list ==> t.event in reg && t in reg[t.event])
    && (forall k, t :: k in reg && t in reg[k] ==> t in list)
  }

  /**
   * `r` is `dict` after `t` was added: the bucket of `t.event` gained `t` and
   * kept all it had, and every other key is as it was.
   */
  ghost predicate AddedTo<S, E>(r: Registry<S, E>, dict: Registry<S, E>, t: Transition<S, E>) {
    && r.Keys == dict.Keys + {t.event}
    && t in r[t.event]
    && Bucket(dict, t.event) <= r[t.event]
    && r[t.event] <= Bucket(dict, t.event) + {t}
    && (forall k :: k in dict && k != t.event ==> r[k] == dict[k])
  }

  /** The static `add(transition:into:)`, with the `inout` dictionary passed in and returned. */
  method AddInto<S(==), E(==)>(t: Transition<S, E>, dictionary: Registry<S, E>) returns (r: Registry<S, E>)
    ensures AddedTo(r, dictionary, t)
    ensures KeyedBy(dictionary) ==> KeyedBy(r)
  {
    var store := {t};
    if t.event in dictionary {
      store := store + dictionary[t.event];
    }
    r := dictionary[t.event := store];
  }

  /** The static `map(transitions:)`: `add` folded over the list from an empty dictionary. */
  method MapTransitions<S(==), E(==)>(list: seq<Transition<S, E>>) returns (dictionary: Registry<S, E>)
    ensures Indexes(dictionary, list)
  {
    dictionary := map[];
    for i := 0 to |list|
      invariant Indexes(dictionary, list[..i])
    {
      dictionary := AddInto(list[i], dictionary);
      assert list[..i + 1] == list[..i] + [list[i]];
    }
    assert list[..|list|] == list;
  }

  // ---------------------------------------------------------------------------
  // Matching

  /** `canTransition(from:)`: the incoming state hashes like `state`. */
  predicate CanTransition<S(==), E(==)>(t: Transition<S, E>, state: S, hash: S -> int) {
    hash(t.incoming) == hash(state)
  }

  /** The members of a bucket that `first(where:)` may return. */
  function Eligible<S(==), E(==)>(bucket: set<Transition<S, E>>, current: S, hash: S -> int): set<Transition<S, E>> {
    set t | t in bucket && CanTransition(t, current, hash)
  }

  /** The candidates for `event` from `current`. */
  function Candidates<S(==), E(==)>(reg: Registry<S, E>, event: E, current: S, hash: S -> int): set<Transition<S, E>> {
    Eligible(Bucket(reg, event), current, hash)
  }

  ghost predicate Injective<S(!new)>(hash: S -> int) {
    forall a, b :: hash(a) == hash(b) ==> a == b
  }

  /**
   * A candidate is a transition registered for the event (and so, in a keyed
   * registry, one whose event is the event) whose incoming state hashes like the
   * current state; under an injective hash, one whose incoming state IS it.
   */
  lemma CandidateIff<S(!new), E>(reg: Registry<S, E>, event: E, current: S, hash: S -> int, t: Transition<S, E>)
    requires KeyedBy(reg)
    ensures t in Candidates(reg, event, current, hash) <==>
              event in reg && t in reg[event] && hash(t.incoming) == hash(current)
    ensures t in Candidates(reg, event, current, hash) ==> t.event == event
    ensures Injective(hash) ==>
              (t in Candidates(reg, event, current, hash) <==> t in Bucket(reg, event) && t.incoming == current)
  {
  }

  /** No two different transitions of `list` share the event and the hash of the incoming state. */
  ghost predicate Unambiguous<S, E>(list: seq<Transition<S, E>>, hash: S -> int) {
    forall i, j ::
      0 <= i < |list| && 0 <= j < |list| &&
      list[i].event == list[j].event && hash(list[i].incoming) == hash(list[j].incoming)
      ==> list[i] == list[j]
  }

  lemma AllEqualAtMostOne<T>(s: set<T>)
    requires forall a, b :: a in s && b in s ==> a == b
    ensures |s| <= 1
  {
    if s != {} {
      var a :| a in s;
      assert s == {a};
    }
  }

  /** A registry built from an unambiguous list offers at most one candidate. */
  lemma AtMostOneCandidate<S, E>(reg: Registry<S, E>, list: seq<Transition<S, E>>, hash: S -> int, event: E, current: S)
    requires Indexes(reg, list) && Unambiguous(list, hash)
    ensures |Candidates(reg, event, current, hash)| <= 1
  {
    var c := Candidates(reg, event, current, hash);
    forall a, b | a in c && b in c
      ensures a == b
    {
      assert a in list && b in list;
      var i :| 0 <= i < |list| && list[i] == a;
      var j :| 0 <= j < |list| && list[j] == b;
    }
    AllEqualAtMostOne(c);
  }

  // ---------------------------------------------------------------------------
  // Dispatch, as a specification

  /** The callback of a deferred transition: the state it brings and whether the machine still exists. */
  datatype Arrival<S> = Arrival(newState: S, machineAlive: bool)

  /**
   * Which of the two signals of a deferred transition comes first. When the
   * watchdog fires first, the process may still call back later (`late`).
   * When the callback comes first the timer is invalidated and never fires.
   */
  datatype Race<S> =
    | TimerFirst(late: Option<Arrival<S>>)
    | CallbackFirst(arrival: Arrival<S>)

  /** How a deferred transition resolves: the state afterwards and what was observed. */
  function Resolve<S(==), E(==)>(t: Transition<S, E>, current: S, race: Race<S>): (S, seq<Effect<S, E>>) {
    match race
    case TimerFirst(_) =>
      (current, [QueueReleased, CancelRequested(t), Completed(Failure(Cancelled))])
    case CallbackFirst(Arrival(s, alive)) =>
      if alive then (s, [QueueReleased, Completed(Success(s)), Transitioned(t, s)])
      else (current, [Completed(Failure(MachineUnavailable))])
  }

  /** Firing the chosen transition `t` from `current`. */
  function Fire<S(==), E(==)>(t: Transition<S, E>, current: S, race: Race<S>): (S, seq<Effect<S, E>>) {
    match t
    case Immediate(_, _, _) =>
      var next := Process(t);
      (next, [Completed(Success(next)), Transitioned(t, next)])
    case Deferred(_, _, _) =>
      Resolve(t, current, race)
  }

  /** One `handle(event:completion:)` from `current` may end in `next` having shown `log`. */
  ghost predicate Step<S, E>(reg: Registry<S, E>, hash: S -> int, current: S, event: E, race: Race<S>,
                             next: S, log: seq<Effect<S, E>>)
  {
    var candidates := Candidates(reg, event, current, hash);
    if candidates == {} then next == current && log == []
    else exists t :: t in candidates && Fire(t, current, race) == (next, log)
  }

  /** The number of times the completion ran. */
  function CompletionCount<S(==), E(==)>(log: seq<Effect<S, E>>): nat {
    if log == [] then 0 else (if log[0].Completed? then 1 else 0) + CompletionCount(log[1..])
  }

  lemma {:induction false} CompletionCountAppend<S, E>(a: seq<Effect<S, E>>, b: seq<Effect<S, E>>)
    ensures CompletionCount(a + b) == CompletionCount(a) + CompletionCount(b)
  {
    if a == [] {
      assert a + b == b;
    } else {
      assert (a + b)[1..] == a[1..] + b;
      CompletionCountAppend(a[1..], b);
    }
  }

  lemma CompletionCountSingle<S, E>(x: Effect<S, E>)
    ensures CompletionCount([x]) == if x.Completed? then 1 else 0
  {
    assert [x][1..] == [];
  }

  /** The log of a cancellation holds one completion. */
  lemma CancelledLogCount<S, E>(t: Transition<S, E>)
    ensures CompletionCount([QueueReleased, CancelRequested(t), Completed(Failure(Cancelled))]) == 1
  {
    CompletionCountSingle<S, E>(QueueReleased);
    CompletionCountSingle(CancelRequested(t));
    CompletionCountSingle<S, E>(Completed(Failure(Cancelled)));
    CompletionCountAppend<S, E>([QueueReleased], [CancelRequested(t)]);
    CompletionCountAppend<S, E>([QueueReleased, CancelRequested(t)], [Completed(Failure(Cancelled))]);
  }

  /** Each of the three logs a resolution can show holds one completion. */
  lemma ResolutionLogCounts<S, E>(t: Transition<S, E>, s: S)
    ensures CompletionCount([QueueReleased, CancelRequested(t), Completed(Failure(Cancelled))]) == 1
    ensures CompletionCount([QueueReleased, Completed(Success(s)), Transitioned(t, s)]) == 1
    ensures CompletionCount<S, E>([Completed(Failure(MachineUnavailable))]) == 1
  {
    CancelledLogCount(t);
    CompletionCountSingle<S, E>(QueueReleased);
    CompletionCountSingle<S, E>(Completed(Success(s)));
    CompletionCountSingle(Transitioned(t, s));
    CompletionCountSingle<S, E>(Completed(Failure(MachineUnavailable)));
    CompletionCountAppend<S, E>([QueueReleased], [Completed(Success(s))]);
    CompletionCountAppend<S, E>([QueueReleased, Completed(Success(s))], [Transitioned(t, s)]);
  }

  /**
   * Firing an immediate transition sets the state to its outgoing state, then
   * delivers that state to the completion, then runs the transition's hook
   * with it, once each.
   */
  lemma ImmediateFire<S, E>(t: Transition<S, E>, current: S, race: Race<S>)
    requires t.Immediate?
    ensures Fire(t, current, race).0 == t.outgoing
    ensures Fire(t, current, race).1 == [Completed(Success(t.outgoing)), Transitioned(t, t.outgoing)]
  {
  }

  /**
   * A deferred transition delivers exactly one result. The state is written
   * only on a success, which carries the new state and is followed by the hook;
   * a timer that fires first cancels and leaves the state alone whatever the
   * process does later; a callback that finds the machine gone reports
   * `MachineUnavailable` and never releases the serial queue.
   */
  lemma DeferredResolution<S, E>(t: Transition<S, E>, current: S, race: Race<S>)
    ensures CompletionCount(Resolve(t, current, race).1) == 1
    ensures Resolve(t, current, race).0 != current ==>
              race.CallbackFirst? && race.arrival.machineAlive && Resolve(t, current, race).0 == race.arrival.newState
    ensures race.TimerFirst? ==>
              Resolve(t, current, race) == Resolve(t, current, TimerFirst(None)) &&
              Completed(Failure(Cancelled)) in Resolve(t, current, race).1 &&
              Resolve(t, current, race).0 == current
    ensures race.CallbackFirst? && !race.arrival.machineAlive ==>
              Resolve(t, current, race).1 == [Completed(Failure(MachineUnavailable))] &&
              QueueReleased !in Resolve(t, current, race).1
  {
    match race
    case TimerFirst(_) =>
      ResolutionLogCounts(t, current);
    case CallbackFirst(Arrival(s, _)) =>
      ResolutionLogCounts(t, s);
  }

  /** With no candidate the state stays and the completion is never called. */
  lemma NoMatchIsSilent<S, E>(reg: Registry<S, E>, hash: S -> int, current: S, event: E, race: Race<S>,
                              next: S, log: seq<Effect<S, E>>)
    requires Candidates(reg, event, current, hash) == {}
    requires Step(reg, hash, current, event, race, next, log)
    ensures next == current && CompletionCount(log) == 0
  {
  }

  /** Over an unambiguous registry a step has one possible outcome. */
  lemma StepDeterministic<S, E>(reg: Registry<S, E>, list: seq<Transition<S, E>>, hash: S -> int,
                                current: S, event: E, race: Race<S>,
                                next1: S, log1: seq<Effect<S, E>>, next2: S, log2: seq<Effect<S, E>>)
    requires Indexes(reg, list) && Unambiguous(list, hash)
    requires Step(reg, hash, current, event, race, next1, log1)
    requires Step(reg, hash, current, event, race, next2, log2)
    ensures next1 == next2 && log1 == log2
  {
    var candidates := Candidates(reg, event, current, hash);
    if candidates != {} {
      var t1 :| t1 in candidates && Fire(t1, current, race) == (next1, log1);
      var t2 :| t2 in candidates && Fire(t2, current, race) == (next2, log2);
      AtMostOneCandidate(reg, list, hash, event, current);
      AllEqualFromAtMostOne(candidates, t1, t2);
    }
  }

  lemma AllEqualFromAtMostOne<T>(s: set<T>, a: T, b: T)
    requires |s| <= 1 && a in s && b in s
    ensures a == b
  {
    if a != b {
      assert {a, b} <= s;
      assert |{a, b}| == 2;
      SubsetCardinality({a, b}, s);
      assert false;
    }
  }

  lemma SubsetCardinality<T>(a: set<T>, b: set<T>)
    requires a <= b
    ensures |a| <= |b|
  {
    assert b == a + (b - a);
  }

  /**
   * When every deferred candidate that calls back first brings its outgoing
   * state, a step moves only along a transition of the list: it stays, or it
   * reaches the target of a transition for the event out of the state before.
   */
  lemma StepFollowsList<S(!new), E>(reg: Registry<S, E>, list: seq<Transition<S, E>>, hash: S -> int,
                                    current: S, event: E, race: Race<S>, next: S, log: seq<Effect<S, E>>)
    requires Indexes(reg, list) && Injective(hash)
    requires forall t :: t in Candidates(reg, event, current, hash) && t.Deferred? && race.CallbackFirst? ==>
                         race.arrival.newState == t.outgoing
    requires Step(reg, hash, current, event, race, next, log)
    ensures next == current || exists t :: t in list && t.event == event && t.incoming == current && next == t.outgoing
  {
    var candidates := Candidates(reg, event, current, hash);
    if candidates != {} {
      var t :| t in candidates && Fire(t, current, race) == (next, log);
      CandidateIff(reg, event, current, hash, t);
      assert t in list;
      assert next == current || next == t.outgoing;
    }
  }

  /** `final` is a state a sequence of `handle` calls, one per event, may end in. */
  ghost predicate Runs<S(!new), E(!new)>(reg: Registry<S, E>, hash: S -> int, current: S, events: seq<E>, races: seq<Race<S>>,
                             final: S)
    decreases |events|
  {
    if events == [] || races == [] then events == [] && races == [] && final == current
    else exists next, log :: Step(reg, hash, current, events[0], races[0], next, log) &&
                             Runs(reg, hash, next, events[1..], races[1..], final)
  }

  /**
   * Over an unambiguous registry the state after a sequence of events (and of
   * races for the deferred ones) is a function of the initial state and those
   * sequences.
   */
  lemma {:induction false} RunsDeterministic<S(!new), E(!new)>(reg: Registry<S, E>, list: seq<Transition<S, E>>, hash: S -> int,
                                                   current: S, events: seq<E>, races: seq<Race<S>>,
                                                   final1: S, final2: S)
    requires Indexes(reg, list) && Unambiguous(list, hash)
    requires Runs(reg, hash, current, events, races, final1)
    requires Runs(reg, hash, current, events, races, final2)
    ensures final1 == final2
    decreases |events|
  {
    if events != [] && races != [] {
      var n1, l1 :| Step(reg, hash, current, events[0], races[0], n1, l1) &&
                    Runs(reg, hash, n1, events[1..], races[1..], final1);
      var n2, l2 :| Step(reg, hash, current, events[0], races[0], n2, l2) &&
                    Runs(reg, hash, n2, events[1..], races[1..], final2);
      StepDeterministic(reg, list, hash, current, events[0], races[0], n1, l1, n2, l2);
      RunsDeterministic(reg, list, hash, n1, events[1..], races[1..], final1, final2);
    }
  }

  // ---------------------------------------------------------------------------
  // The machine

  /**
   * The record `handleAsync` shares between the watchdog closure and the
   * completion it hands to `process`: the captured `cancelled` flag, whether
   * the timer is still scheduled, whether the dispatch group still holds the
   * serial queue, and what this event has shown so far.
   */
  class InFlight<S(==), E(==)> {
    const transition: Transition<S, E>
    var cancelled: bool
    var timerArmed: bool
    var queueHeld: bool
    var log: seq<Effect<S, E>>
    /** Whether the process has called back (again only after a cancellation). */
    ghost var calledBack: bool

    /**
     * Exactly-once resolution: while the timer is armed nothing has been
     * delivered; once it is disarmed (fired or invalidated) one result has.
     */
    ghost predicate Valid()
      reads this
    {
      && CompletionCount(log) == (if timerArmed then 0 else 1)
      && (timerArmed ==> !cancelled && !calledBack && queueHeld && log == [])
      && (cancelled ==> !timerArmed && !queueHeld &&
                        log == [QueueReleased, CancelRequested(transition), Completed(Failure(Cancelled))])
      && (!timerArmed && !cancelled ==> calledBack)
    }

    /** The set-up of `handleAsync`: flag cleared, timer scheduled, group entered. */
    constructor (transition: Transition<S, E>)
      ensures Valid() && this.transition == transition
      ensures !cancelled && timerArmed && queueHeld && log == [] && !calledBack
    {
      this.transition := transition;
      cancelled := false;
      timerArmed := true;
      queueHeld := true;
      log := [];
      calledBack := false;
    }

    /**
     * The watchdog fires (a non-repeating timer, never after it was
     * invalidated): it sets the flag, releases the queue, asks the transition
     * to cancel and delivers `Cancelled`.
     */
    method TimerFires()
      requires Valid() && timerArmed
      modifies this
      ensures Valid() && cancelled && !timerArmed && !queueHeld && calledBack == old(calledBack)
      ensures log == old(log) + [QueueReleased, CancelRequested(transition), Completed(Failure(Cancelled))]
    {
      cancelled := true;
      timerArmed := false;
      queueHeld := false;
      log := log + [QueueReleased];
      log := log + [CancelRequested(transition)];
      log := log + [Completed(Failure(Cancelled))];
      CancelledLogCount(transition);
    }

    /**
     * The process calls back with `newState`; `owner` is the weak reference to
     * the machine, null once the machine is gone. After a cancellation it does
     * nothing. Otherwise it invalidates the timer and either reports
     * `MachineUnavailable` or writes the state, releases the queue, delivers
     * the success and runs the hook, in that order.
     */
    method Callback(newState: S, owner: ConcreteMachine?<S, E>)
      requires Valid() && (!calledBack || cancelled)
      modifies this, owner
      ensures Valid() && calledBack
      ensures owner != null ==> owner.transitions == old(owner.transitions)
      ensures old(cancelled) ==>
                cancelled && !timerArmed && !queueHeld && log == old(log) &&
                (owner != null ==> owner.current == old(owner.current))
      ensures !old(cancelled) && owner == null ==>
                !timerArmed && queueHeld && log == old(log) + [Completed(Failure(MachineUnavailable))]
      ensures !old(cancelled) && owner != null ==>
                !timerArmed && !queueHeld && owner.current == newState &&
                log == old(log) + [QueueReleased, Completed(Success(newState)), Transitioned(transition, newState)]
    {
      calledBack := true;
      if cancelled {
        return;
      }
      timerArmed := false;
      if owner == null {
        log := log + [Completed(Failure(MachineUnavailable))];
        ResolutionLogCounts(transition, newState);
        return;
      }
      owner.current := newState;
      queueHeld := false;
      log := log + [QueueReleased];
      log := log + [Completed(Success(newState))];
      log := log + [Transitioned(transition, newState)];
      ResolutionLogCounts(transition, newState);
    }
  }

  /** `ConcreteMachine`: the current state and the registry. */
  class ConcreteMachine<S(==), E(==)> {
    const stateHash: S -> int
    var current: S
    var transitions: Registry<S, E>

    ghost predicate Valid()
      reads this
    {
      KeyedBy(transitions)
    }

    /** `init(with:transitions:)`, which `StateMachine.machine(with:_:)` calls. */
    constructor (state: S, list: seq<Transition<S, E>>, stateHash: S -> int)
      ensures Valid() && current == state && this.stateHash == stateHash
      ensures Indexes(transitions, list)
    {
      var dictionary := MapTransitions(list);
      this.stateHash := stateHash;
      current := state;
      transitions := dictionary;
    }

    /** `add(transition:)`. */
    method Add(t: Transition<S, E>)
      requires Valid()
      modifies this
      ensures Valid() && current == old(current)
      ensures AddedTo(transitions, old(transitions), t)
    {
      transitions := AddInto(t, transitions);
    }

    /** `handleAsync(transition:completion:)`, with the order of its two signals given by `race`. */
    method HandleAsync(t: Transition<S, E>, race: Race<S>) returns (log: seq<Effect<S, E>>)
      modifies this
      ensures transitions == old(transitions)
      ensures (current, log) == Resolve(t, old(current), race)
    {
      var flight := new InFlight(t);
      match race {
        case TimerFirst(late) =>
          flight.TimerFires();
          if late.Some? {
            flight.Callback(late.value.newState, if late.value.machineAlive then this else null);
          }
        case CallbackFirst(arrival) =>
          flight.Callback(arrival.newState, if arrival.machineAlive then this else null);
          if arrival.machineAlive {
            assert flight.log == [QueueReleased, Completed(Success(current)), Transitioned(t, current)];
          } else {
            assert flight.log == [Completed(Failure(MachineUnavailable))];
          }
      }
      log := flight.log;
    }

    /**
     * The body `handle(event:completion:)` runs on its serial queue: pick any
     * candidate; fire it when immediate, resolve it when deferred; with no
     * candidate, do nothing (the completion is not called).
     */
    method Handle(event: E, race: Race<S>) returns (log: seq<Effect<S, E>>)
      requires Valid()
      modifies this
      ensures Valid() && transitions == old(transitions)
      ensures Step(old(transitions), stateHash, old(current), event, race, current, log)
    {
      log := [];
      ghost var before := current;
      if event in transitions && exists t :: t in transitions[event] && CanTransition(t, current, stateHash) {
        var t :| t in transitions[event] && CanTransition(t, current, stateHash);
        assert t in Candidates(transitions, event, current, stateHash);
        match t {
          case Deferred(_, _, _) =>
            log := HandleAsync(t, race);
          case Immediate(_, _, _) =>
            current := Process(t);
            log := log + [Completed(Success(current))];
            log := log + [Transitioned(t, current)];
            assert log == [Completed(Success(current)), Transitioned(t, current)];
        }
        assert Fire(t, before, race) == (current, log);
      }
    }
  }
}
