/**
 * `Vanilla.StateMachine`: the single-threaded machine. Transitions carry their
 * outgoing state directly and an optional callback; `on(event:)` looks up the
 * event's bucket, takes any transition that `matches`, moves to its outgoing
 * state and runs its callback.
 *
 * A callback closure is modelled by the label `C` of what it does; running it
 * appends that label to the machine's `ran` trace. States and events are
 * compared through their hashes, which the machine carries as functions.
 *
 * The struct's `==` is stated twice: as written, which is not reflexive and
 * which `addTransition`'s set union uses, and as intended (event, incoming
 * and outgoing alike), with the deduplication it would give.
 */
module Vanilla {
  import opened Wrappers

  /** The private `Transition` struct. */
  datatype Transition<S, E, C> = Transition(event: E, incoming: S, outgoing: S, callback: Option<C>)

  type Registry<S(==), E(==), C(==)> = map<E, set<Transition<S, E, C>>>

  /** `matches(event:state:)`: the event and the incoming state hash like the arguments. */
  predicate Matches<S, E, C>(t: Transition<S, E, C>, event: E, state: S, stateHash: S -> int, eventHash: E -> int) {
    eventHash(t.event) == eventHash(event) && stateHash(t.incoming) == stateHash(state)
  }

  /** `transitions[key]`, with a missing key read as the empty set. */
  function Bucket<S(==), E(==), C(==)>(reg: Registry<S, E, C>, event: E): set<Transition<S, E, C>> {
    if event in reg then reg[event] else {}
  }

  /** The transitions `first(where:)` may return for `event` from `state`. */
  function Matching<S(==), E(==), C(==)>(reg: Registry<S, E, C>, event: E, state: S,
                                         stateHash: S -> int, eventHash: E -> int): set<Transition<S, E, C>>
  {
    set t | t in Bucket(reg, event) && Matches(t, event, state, stateHash, eventHash)
  }

  /** Every transition stored under a key has that key as its event. */
  ghost predicate KeyedBy<S, E, C>(reg: Registry<S, E, C>) {
    forall k, t :: k in reg && t in reg[k] ==> t.event == k
  }

  /** What running an optional callback adds to the trace. */
  function Ran<C>(callback: Option<C>): seq<C> {
    if callback.Some? then [callback.value] else []
  }

  /**
   * In a keyed registry the event half of `matches` always holds, so a
   * transition of the bucket matches exactly when its incoming state hashes
   * like the current state.
   */
  lemma MatchingByState<S, E, C>(reg: Registry<S, E, C>, event: E, state: S,
                                 stateHash: S -> int, eventHash: E -> int, t: Transition<S, E, C>)
    requires KeyedBy(reg)
    ensures t in Matching(reg, event, state, stateHash, eventHash) <==>
              event in reg && t in reg[event] && stateHash(t.incoming) == stateHash(state)
  {
  }

  // ---------------------------------------------------------------------------
  // `==` and `hash(into:)` as written

  /**
   * The hash of a transition as `hash(into:)` writes it: the event and the
   * incoming state, the incoming state twice, the outgoing state not at all.
   * `combine` stands for the hasher.
   */
  function HashAsWritten<S, E, C>(t: Transition<S, E, C>, stateHash: S -> int, eventHash: E -> int,
                                  combine: (int, int, int) -> int): int
  {
    combine(eventHash(t.event), stateHash(t.incoming), stateHash(t.incoming))
  }

  /**
   * `==` as written: the left event's hash against the hash of the whole right
   * transition, the incoming hashes, and the right outgoing hash against itself.
   */
  predicate EqualAsWritten<S, E, C>(lhs: Transition<S, E, C>, rhs: Transition<S, E, C>,
                                    stateHash: S -> int, eventHash: E -> int, combine: (int, int, int) -> int)
  {
    && eventHash(lhs.event) == HashAsWritten(rhs, stateHash, eventHash, combine)
    && stateHash(lhs.incoming) == stateHash(rhs.incoming)
    && stateHash(rhs.outgoing) == stateHash(rhs.outgoing)
  }

  /**
   * `==` never looks at an outgoing state, and a transition is equal to itself
   * only when the hasher happens to map it to its own event's hash.
   */
  lemma EqualAsWrittenQuirks<S, E, C>(lhs: Transition<S, E, C>, rhs: Transition<S, E, C>, other: S,
                                      stateHash: S -> int, eventHash: E -> int, combine: (int, int, int) -> int)
    ensures EqualAsWritten(lhs, rhs, stateHash, eventHash, combine) ==
            EqualAsWritten(lhs.(outgoing := other), rhs.(outgoing := other), stateHash, eventHash, combine)
    ensures EqualAsWritten(lhs, lhs, stateHash, eventHash, combine) <==>
            eventHash(lhs.event) == HashAsWritten(lhs, stateHash, eventHash, combine)
  {
  }

  /**
   * A hasher under which no transition is `==` to any, itself included, so
   * `formUnion` keeps every earlier member of a bucket.
   */
  lemma EqualAsWrittenIrreflexive(t: Transition<int, int, int>, u: Transition<int, int, int>)
    ensures !EqualAsWritten(t, t, s => s, e => 0, (a, b, c) => 1)
    ensures !EqualAsWritten(t, u, s => s, e => 0, (a, b, c) => 1)
  {
  }

  // ---------------------------------------------------------------------------
  // `==` as intended, and the deduplication `formUnion` performs with it

  /** `==` as intended: event, incoming and outgoing hash alike on both sides; the callback plays no part. */
  predicate Equal<S, E, C>(lhs: Transition<S, E, C>, rhs: Transition<S, E, C>, stateHash: S -> int, eventHash: E -> int) {
    && eventHash(lhs.event) == eventHash(rhs.event)
    && stateHash(lhs.incoming) == stateHash(rhs.incoming)
    && stateHash(lhs.outgoing) == stateHash(rhs.outgoing)
  }

  /**
   * The intended `==` is an equivalence, as `Hashable` demands, and equal
   * transitions hash alike under `hash(into:)` as written, whatever the hasher.
   */
  lemma EqualIsEquivalence<S, E, C>(a: Transition<S, E, C>, b: Transition<S, E, C>, c: Transition<S, E, C>,
                                    stateHash: S -> int, eventHash: E -> int, combine: (int, int, int) -> int)
    ensures Equal(a, a, stateHash, eventHash)
    ensures Equal(a, b, stateHash, eventHash) ==> Equal(b, a, stateHash, eventHash)
    ensures Equal(a, b, stateHash, eventHash) && Equal(b, c, stateHash, eventHash) ==> Equal(a, c, stateHash, eventHash)
    ensures Equal(a, b, stateHash, eventHash) ==>
              HashAsWritten(a, stateHash, eventHash, combine) == HashAsWritten(b, stateHash, eventHash, combine)
  {
  }

  /** No two members of a bucket are `==` as intended. */
  ghost predicate Distinct<S, E, C>(bucket: set<Transition<S, E, C>>, stateHash: S -> int, eventHash: E -> int) {
    forall a, b :: a in bucket && b in bucket && Equal(a, b, stateHash, eventHash) ==> a == b
  }

  /**
   * `[t]` after `formUnion(bucket)` with `==` as intended: `insert` leaves a
   * set alone when it already holds an `==` member, so `t` stays and an
   * earlier member stays exactly when it is not `==` to `t`.
   */
  function FormUnion<S(==), E(==), C(==)>(t: Transition<S, E, C>, bucket: set<Transition<S, E, C>>,
                                          stateHash: S -> int, eventHash: E -> int): (r: set<Transition<S, E, C>>)
    ensures t in r && r <= bucket + {t}
    ensures forall x :: x in bucket && x != t ==> (x in r <==> !Equal(x, t, stateHash, eventHash))
  {
    {t} + set x | x in bucket && !Equal(x, t, stateHash, eventHash)
  }

  /** With `==` as intended, adding a transition never leaves two `==` transitions in a bucket. */
  lemma FormUnionDistinct<S, E, C>(t: Transition<S, E, C>, bucket: set<Transition<S, E, C>>,
                                   stateHash: S -> int, eventHash: E -> int)
    requires Distinct(bucket, stateHash, eventHash)
    ensures Distinct(FormUnion(t, bucket, stateHash, eventHash), stateHash, eventHash)
  {
    var r := FormUnion(t, bucket, stateHash, eventHash);
    forall a, b | a in r && b in r && Equal(a, b, stateHash, eventHash)
      ensures a == b
    {
      if a != t && b != t {
        assert a in bucket && b in bucket;
      }
    }
  }

  // ---------------------------------------------------------------------------
  // The machine

  class StateMachine<S(==), E(==), C(==)> {
    const stateHash: S -> int
    const eventHash: E -> int
    /** What `hash(into:)` makes of the three hashes it combines. */
    const hasher: (int, int, int) -> int
    var current: S
    var transitions: Registry<S, E, C>
    /** The labels of the callbacks run so far, oldest first. */
    var ran: seq<C>

    ghost predicate Valid()
      reads this
    {
      KeyedBy(transitions)
    }

    /** `init(with:)`; the hashes stand for the `Hashable` conformances of `S` and `E`. */
    constructor (state: S, stateHash: S -> int, eventHash: E -> int, hasher: (int, int, int) -> int)
      ensures Valid() && current == state && transitions == map[] && ran == []
      ensures this.stateHash == stateHash && this.eventHash == eventHash && this.hasher == hasher
      ensures forall e :: Matching(transitions, e, current, stateHash, eventHash) == {}
    {
      this.stateHash := stateHash;
      this.eventHash := eventHash;
      this.hasher := hasher;
      current := state;
      transitions := map[];
      ran := [];
    }

    /**
     * `on(event:)`. With no matching transition nothing changes; otherwise the
     * state becomes the outgoing state of one of them and its callback, if any,
     * runs once.
     */
    method On(event: E)
      requires Valid()
      modifies this
      ensures Valid() && transitions == old(transitions)
      ensures var matching := Matching(old(transitions), event, old(current), stateHash, eventHash);
        && (matching == {} ==> current == old(current) && ran == old(ran))
        && (matching != {} ==> exists t :: t in matching && current == t.outgoing && ran == old(ran) + Ran(t.callback))
    {
      if event in transitions && exists t :: t in transitions[event] && Matches(t, event, current, stateHash, eventHash) {
        var t :| t in transitions[event] && Matches(t, event, current, stateHash, eventHash);
        assert t in Matching(transitions, event, current, stateHash, eventHash);
        current := t.outgoing;
        if t.callback.Some? {
          ran := ran + [t.callback.value];
        }
      }
    }

    /**
     * `addTransition(from:to:for:callback:)`. The new transition is in the
     * event's bucket afterwards, together with the earlier members; `formUnion`
     * skips an earlier member only when the store already holds one that is
     * `==` to it as written, and adds nothing else. Every other bucket stays as
     * it was. The new transition is then a candidate for its event from its
     * incoming state.
     */
    method AddTransition(incoming: S, outgoing: S, event: E, callback: Option<C>)
      requires Valid()
      modifies this
      ensures Valid() && current == old(current) && ran == old(ran)
      ensures transitions.Keys == old(transitions).Keys + {event}
      ensures forall e :: e in old(transitions) && e != event ==> transitions[e] == old(transitions)[e]
      ensures var t := Transition(event, incoming, outgoing, callback);
        && t in transitions[event]
        && transitions[event] <= Bucket(old(transitions), event) + {t}
        && t in Matching(transitions, event, incoming, stateHash, eventHash)
      ensures forall x :: x in Bucket(old(transitions), event) && x !in transitions[event] ==>
                exists y :: y in transitions[event] &&
                  (EqualAsWritten(x, y, stateHash, eventHash, hasher) || EqualAsWritten(y, x, stateHash, eventHash, hasher))
    {
      var store := {Transition(event, incoming, outgoing, callback)};
      if event in transitions {
        store := store + transitions[event];
      }
      transitions := transitions[event := store];
    }
  }
}
