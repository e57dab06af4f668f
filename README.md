# StateMachine, modelled in Dafny

A model of the Swift package `StateMachine`, which holds two finite-state machines.

- **The DSL machine** (`StateMachine.swift`). A `ConcreteMachine` indexes its transitions by event. Events are handled one at a time on a serial queue. A transition is either immediate (`DefaultTransition`) or deferred (`AsyncTransition`). A deferred transition runs against a watchdog timer: whichever signal comes first, the timeout or the process's callback, decides the outcome. Every handled transition delivers exactly one result to the caller's completion.
- **The `Vanilla.StateMachine`** (`Vanilla.swift`). It is a plain value with an event-indexed registry, and `on(event:)` runs an optional callback.
- **The demo program** (`main.swift`). It defines the states of matter, the `MatterTransition` and `AsyncMatterTransition` types, and the table that `machine2` is built from. It also drives `machine1` through eleven events.

Files:

- `wrappers.dfy`: `Option`, standing for Swift's optionals.
- `state_machine.dfy`, module `StateMachine`: the DSL engine.
  - The registry (`add`, `map`) and matching (`canTransition`).
  - A specification of one `handle` step (`Step`, `Fire`, `Resolve`).
  - The classes `ConcreteMachine` and `InFlight`. `InFlight` is the state that `handleAsync` shares between its timer closure and its callback closure.
- `vanilla.dfy`, module `Vanilla`: the Vanilla machine as a class, plus the struct's `hash(into:)` and `==`.
- `matter.dfy`, module `Matter`: the demo's types, `machine2`'s table and `machine1`'s run.

Modelling choices:

- **Transitions.** A transition of the engine is a value `Immediate(event, incoming, outgoing)` or `Deferred(event, incoming, outgoing)`. These stand for `MatterTransition` and `AsyncMatterTransition`, whose `==` compares exactly these three fields.
- **Closures as an effect log.** The closures a transition carries are replaced by a log of what a `handle` call shows:
  - `Completed(result)`: the completion ran with `result`;
  - `Transitioned(t, s)`: `onTransitioned` ran;
  - `CancelRequested(t)`: `cancel()` was called;
  - `QueueReleased`: `group.leave()` let the serial queue go on.
- **Hashes.** States and events are compared by `hashValue`, so hashes are function parameters. The demo uses each case's position, which is injective (`Matter.HashesInjective`).
- **Time.** Wall-clock time does not appear. For a deferred transition, a `Race` value says which signal comes first. If the callback comes first, it also says whether the machine still exists, which models the `weak self` reference.
- **Deferred callbacks.** The engine itself accepts any state from a deferred transition's callback, as the `AsyncTransition` protocol does. For `machine2`, `MatterRace` states how an `AsyncMatterTransition` can meet the watchdog: if the process calls back first, it brings `outgoing`; if the watchdog fires first, the process never calls back. `RaceOf` derives this from the object's own `cancel()` and `process(_:)`.
- **Selection.** `first(where:)` on a `Set` may return any matching member, so the choice is nondeterministic (`:|`). The specification `Step` allows any candidate. `StepDeterministic` and `RunsDeterministic` show that this freedom is harmless when no two transitions share an event and a source state, as in `machine2`'s table.

Two behaviours of the code are worth knowing, and the model keeps both:

- `Errors` has no case for an event without a transition. Such an event only prints, and the completion is never called (`NoMatchIsSilent`).
- A callback that finds the machine gone reports `machineUnavailable` but never calls `group.leave()` (`DeferredResolution`, `InFlight.Callback`).

## Model

| member | source | states |
|---|---|---|
| StateMachine.AddInto | StateMachine/StateMachine.swift:130-135 | The result holds every key it held before plus `t.event`. The bucket of `t.event` contains `t` and everything it held before, and nothing else. Every other bucket is unchanged. A registry keyed by event stays keyed by event. |
| StateMachine.MapTransitions | StateMachine/StateMachine.swift:123-128 | The dictionary holds exactly the transitions of the list. Each is stored under its own event and every stored transition comes from the list. This is a loop invariant over the `forEach` fold. |
| StateMachine.CandidateIff | StateMachine/StateMachine.swift:34-38 | A transition is a candidate for an event from a state if and only if it is registered under that event and its incoming state hashes like the current state; a candidate's event is the handled event. Under an injective hash, a candidate is a registered transition whose incoming state is the current state. |
| StateMachine.AtMostOneCandidate | StateMachine/StateMachine.swift:69-71 | A registry built from a list in which no two transitions share an event and a source-state hash offers at most one candidate for any event and state. |
| StateMachine.ImmediateFire | StateMachine/StateMachine.swift:77-81 | Firing an immediate transition sets the state to `process()`, its outgoing state. The completion then receives that state as a success, and afterwards `onTransitioned` runs with it. |
| StateMachine.DeferredResolution | StateMachine/StateMachine.swift:90-121 | A deferred transition delivers exactly one result. The state changes only on a success, which carries the new state. When the timer fires first, the state stays, the result is `cancelled`, and a late callback changes nothing. When the machine is gone, the result is `machineUnavailable` and the queue is never released. |
| StateMachine.NoMatchIsSilent | StateMachine/StateMachine.swift:82-84 | An event with no candidate leaves the state as it was and never calls the completion. |
| StateMachine.StepDeterministic | StateMachine/StateMachine.swift:68-86 | Over a registry built from an unambiguous list, a `handle` step has exactly one possible new state and log. |
| StateMachine.StepFollowsList | StateMachine/StateMachine.swift:68-121 | Suppose every deferred candidate that calls back first brings its outgoing state. Then a step from a registry indexing a list, under an injective hash, either leaves the state as it was or moves to the target of a listed transition for the event out of the previous state. |
| StateMachine.RunsDeterministic | StateMachine/StateMachine.swift:68-86 | Over such a registry, the state after any sequence of handled events depends only on the initial state, the events and the order of the deferred signals. |
| StateMachine.InFlight.constructor | StateMachine/StateMachine.swift:91-103 | Set-up of `handleAsync`: the flag is clear, the timer is armed, the group holds the queue and nothing has been delivered. |
| StateMachine.InFlight.TimerFires | StateMachine/StateMachine.swift:93-100 | Requires an armed timer, so it cannot fire once invalidated. It sets `cancelled`, releases the queue, calls `cancel()` and then delivers `cancelled`, once. Exactly-once delivery (`Valid`) is kept. |
| StateMachine.InFlight.Callback | StateMachine/StateMachine.swift:104-118 | It may run any number of times after a cancellation, and then it changes nothing, not even the machine's state. Otherwise it disarms the timer. With the machine gone, it delivers `machineUnavailable` only. With the machine present, it writes the new state, releases the queue, delivers the success and runs the hook, in that order. The registry is never touched, and exactly one result is delivered overall. |
| StateMachine.ConcreteMachine.constructor | StateMachine/StateMachine.swift:57-60 | The machine starts in the given state with a registry holding exactly the given transitions, each under its event. |
| StateMachine.ConcreteMachine.Add | StateMachine/StateMachine.swift:62-64 | The registry becomes the registry with `t` added, as in `AddInto`. The state is unchanged. |
| StateMachine.ConcreteMachine.HandleAsync | StateMachine/StateMachine.swift:90-121 | The new state and the effects shown are `Resolve` of the transition, the old state and the race, whose properties `DeferredResolution` states. The registry is unchanged. |
| StateMachine.ConcreteMachine.Handle | StateMachine/StateMachine.swift:68-86 | The new state and the effects shown form a `Step`. With no candidate, nothing happens. Otherwise some candidate fires: immediately, or resolved against the watchdog. The registry is unchanged. |
| Vanilla.MatchingByState | StateMachine/Vanilla.swift:24-26 | In a registry keyed by event, a member of the event's bucket `matches` exactly when its incoming state hashes like the current state. |
| Vanilla.EqualAsWrittenQuirks | StateMachine/Vanilla.swift:18-32 | `==` as written never depends on an outgoing state. A transition equals itself exactly when its event's hash equals the hash of the whole transition. |
| Vanilla.EqualAsWrittenIrreflexive | StateMachine/Vanilla.swift:28-32 | There is a hasher under which no transition is `==` to any transition, itself included. |
| Vanilla.EqualIsEquivalence | StateMachine/Vanilla.swift:28-32 | `==` as intended is reflexive, symmetric and transitive, and `==` transitions hash alike under `hash(into:)` as written. |
| Vanilla.FormUnion | StateMachine/Vanilla.swift:54-55 | The corrected half of the finding below: `formUnion` with `==` as intended. The new transition is in the store and nothing outside the old bucket is. An earlier member stays exactly when it is not `==` to the new transition. |
| Vanilla.FormUnionDistinct | StateMachine/Vanilla.swift:52-57 | With `==` as intended, adding a transition to a bucket without two `==` members leaves a bucket without two `==` members. |
| Vanilla.StateMachine.constructor | StateMachine/Vanilla.swift:38-40 | The machine starts in the given state with an empty registry, so no event matches. |
| Vanilla.StateMachine.On | StateMachine/Vanilla.swift:42-50 | With no matching transition, state and trace stay as they were. Otherwise the state becomes the outgoing state of a matching transition and that transition's callback, if any, runs once. The registry is unchanged. |
| Vanilla.StateMachine.AddTransition | StateMachine/Vanilla.swift:52-57 | The event's key is present, and its bucket holds the new transition and otherwise only earlier members. An earlier member is missing only when a member of the new bucket is `==` to it as written, in either order. Every other bucket, the state and the trace are unchanged, and the registry stays keyed by event. The new transition is then a candidate for `on(event:)` from its incoming state. |
| Matter.HashesInjective | StateMachine/main.swift:13-19 | Distinct cases of `States` and `Action` hash apart, so comparing them by hash is comparing them. |
| Matter.MatterEquality | StateMachine/main.swift:76-86 | Two transitions of the same type are `==` exactly when event, incoming and outgoing agree, and `==` transitions hash alike. |
| Matter.MatterProcess | StateMachine/main.swift:71-74 | `process()` returns the outgoing state, and dispatch installs it. |
| Matter.AsyncMatterTransition.constructor | StateMachine/main.swift:100-106 | The fields are those given, and the object starts uncancelled. |
| Matter.AsyncMatterTransition.Cancel | StateMachine/main.swift:108-112 | `cancel()` sets the flag. |
| Matter.AsyncMatterTransition.Process | StateMachine/main.swift:114-123 | After the sleep, the completion receives `outgoing` if and only if the object was not cancelled. |
| Matter.RaceOf | StateMachine/main.swift:108-123 | A fresh object under `handleAsync` meets the watchdog as `MatterRace` says. If the watchdog fires first, `cancel()` lands during the sleep and no callback follows. If the process finishes first, it calls back with `outgoing`, and the arrival records whether the machine is there. The object is cancelled afterwards exactly when the watchdog fired first. |
| Matter.AsyncEqualsIsKeyEquality | StateMachine/main.swift:131-135 | `==` on two objects holds exactly when their registry values are equal. |
| Matter.WatchdogDuringSleep | StateMachine/main.swift:108-123 | A cancel that lands during the sleep means the process never calls back, and the flag stays set. |
| Matter.DslEventsDistinct | StateMachine/main.swift:138-150 | No two transitions of `machine2`'s table share an event. |
| Matter.DslTableUnambiguous | StateMachine/main.swift:138-150 | `machine2`'s table has no two transitions with the same event and source. |
| Matter.DslRunsDeterministic | StateMachine/main.swift:138-150 | For `machine2`, every sequence of events, given the order of the deferred signals, ends in a single state. |
| Matter.DslBucket | StateMachine/main.swift:138-150 | In `machine2`'s registry, the bucket of each table event holds that table entry alone. |
| Matter.DslFreezeFromLiquid | StateMachine/main.swift:146 | From `.liquid`, `freeze` moves `machine2` to `.solid`. It delivers the success, then runs the hook. |
| Matter.DslBoilFromLiquid | StateMachine/main.swift:145 | From `.liquid`, with a race that `RaceOf` can produce for the table's `boil` transition, `boil` behaves as follows. If the process calls back first and the machine is there, it reaches `.gas`, releases the queue, delivers the success and runs the hook. If the machine is gone, it stays `.liquid` with `machineUnavailable`. If the watchdog fires first, it stays `.liquid` after releasing the queue, cancelling and delivering `cancelled`. |
| Matter.DslStepFollowsTable | StateMachine/main.swift:138-150 | With such races, one event leaves `machine2` in its state or moves it to the target of the table's transition for that event out of that state. |
| Matter.Register | StateMachine/main.swift:25-35 | `addTransition` for an action not yet registered sets its bucket to that action's transition alone. |
| Matter.RegisterSolidAndGas | StateMachine/main.swift:25-29 | The first four registrations give the registry of melt, sublimate, deposit and condensate. |
| Matter.BuildMachine1 | StateMachine/main.swift:23-35 | `machine1` starts at `.liquid` with an empty trace, and its registry holds exactly the eight transitions, one per action. |
| Matter.Machine1Valid | StateMachine/main.swift:23-35 | `machine1`'s registry is keyed by event, the invariant `on(event:)` relies on. |
| Matter.Send | StateMachine/main.swift:39-49 | One `on(event:)` of `machine1` moves along the event's transition, with its announcement, exactly when that transition's source is the current state. Otherwise nothing changes. |
| Matter.VanillaDemo | StateMachine/main.swift:23-49 | The eleven events take `machine1` through liquid, solid, gas, plasma, plasma, plasma, gas, liquid, gas, solid, liquid. Three events find no transition, so exactly eight callbacks run, in the order freezing, sublimating, ionizing, deionizing, condensating, boiling, depositing, melting. |

## Findings

| source | as written | input that shows it | evidently intended | confidence | as-written member | corrected member |
|---|---|---|---|---|---|---|
| StateMachine/Vanilla.swift:28-32 | `==` compares the left event's hash with the hash of the whole right transition, and compares the right outgoing state's hash with itself | any transition compared with itself, e.g. melt from solid to liquid: its event's hash almost never equals the whole transition's hash, so it is not `==` to itself, and `Set` deduplication in `addTransition` in effect never applies | compare event with event, incoming with incoming, and outgoing with outgoing | high; not executed | Vanilla.EqualAsWrittenIrreflexive | Vanilla.EqualIsEquivalence |

`Vanilla.StateMachine.AddTransition` follows the code as written: only `==` as written can make `formUnion` skip an earlier member. Under the hasher of `EqualAsWrittenIrreflexive`, nothing is skipped. With the intended `==`, `Vanilla.FormUnion` would replace an earlier member with the same event, source and target, and `Vanilla.FormUnionDistinct` proves that buckets then never hold two such members. The demo never adds two such transitions.

## Left out

- Threads and queues are not modelled: the serial `DispatchQueue`, the `DispatchGroup` wait, the `Timer` on the main `RunLoop` and `Thread.sleep`. The order of a deferred transition's two signals is a parameter (`Race`), not a consequence of the five-second timeout and each transition's `waitTime`. The data race on `cancelled` between the timer and the callback is not modelled.
- `print` output is not modelled: the "no transition found" and "processing" messages, and the demo's callback messages. The callbacks become labels (`Matter.Announcement`) or log entries.
- `Matter`'s DSL run of `machine2` (main.swift lines 152-166) is not modelled as a trace. Its outcome depends on real time: `waitTime` against the timeout, with `process` sleeping on the caller's thread. Its steps are covered by `DslFreezeFromLiquid`, `DslBoilFromLiquid` and `DslRunsDeterministic`.
- `TransitionBuilder`, the result builder that turns the trailing closure into a list, is not modelled: `machine2`'s table is a literal sequence (`DslTable`).
- The `Machine` protocol, its `handle(event:)` convenience without a completion, and `Cancellable` are not modelled separately.
- `AnyHashable` wrapping and existential casts (`as? any Transition`) are not modelled; a registry holds only the two transition kinds.
- StateMachine.ConcreteMachine.Add: the DSL registry is a set of values, so of two `==` transitions with different closures the model cannot say whose closure stays.
- `add(transition:)` writes the registry outside the serial queue. That unsynchronised access is not modelled.
- Matter.AsyncMatterTransition.Process: the `cancelled` flag of the registered object persists across events, so a cancelled `AsyncMatterTransition` never completes again. The engine's registry holds transitions as values, so `ConcreteMachine.Handle` does not carry that flag from one event to the next; `WatchdogDuringSleep` states it for one object.
- Vanilla.StateMachine.AddTransition: the contract does not say which earlier members `formUnion` skips, only that each skipped one is `==` as written to a member of the new bucket. Swift's `Set` probing order, which decides that, is not modelled. The model's body skips none.
- StateMachine.ConcreteMachine.Handle: the state a deferred callback brings is a free parameter, as the `AsyncTransition` protocol allows. It is tied to `outgoing` only for `AsyncMatterTransition`, through `Matter.MatterRace`.
- StateMachine.InFlight.Callback: when nothing was cancelled, it requires that the process has not called back before. After a success, a second callback would call `group.leave()` twice, which traps in Swift. After `machineUnavailable`, it would deliver a second result. After a cancellation, repeated callbacks are allowed and do nothing.
- Hash values themselves are not modelled. Swift seeds them per process, so the model takes them as function parameters, and the demo uses each case's position.
