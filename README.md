# Event-sourced counter aggregate, modelled in Dafny

This project models the aggregate runtime of `eventsourced-functional-aggregate`. An aggregate
keeps two registries. One maps each command class to a handler. A handler validates the command
and returns the one event it stands for. The other maps each event class to an applier, which
changes the aggregate's state. `handle` runs a command's handler and then `apply`s the event it
returned. `applyAll` and `recreate` rebuild state from a snapshot by applying a list of events
in order. The concrete aggregate is a counter with two commands, `IncrementCounter` and
`DecrementCounter`. Each refuses a value below 1 and otherwise emits `CounterIncremented` or
`CounterDecremented`. The appliers add the value to the counter or subtract it.

Layout:

- `wrappers.dfy`: `Option` stands for a Java `null`. `Result` stands for an exception that
  reaches the caller.
- `messages.dfy`: the command and event values. Each is a class tag plus its `Integer` value.
  Any class the counter does not know is `OtherCommand(name)` or `OtherEvent(name)`. The module
  also defines the four kinds of error and their messages.
- `engine.dfy`: the runtime's semantics as pure functions over the two registries:
  - `EmitEvent` and `HandleCommand` model `handle`;
  - `ApplyEvent` models `apply`;
  - `Replay` models the `applyAll` loop;
  - `Recreated` models `recreate`'s `foldLeft`.

  It also holds the replay lemmas, and `HandleAll` for handling commands one after another.
- `counter.dfy`: the class `CounterAggregate`, which holds the `commands` and `events` maps and
  the `counter`. Its methods update them in place, and each is proved against the engine's
  functions. The module also holds the counter's handlers and appliers, `configure`, the
  counter lemmas and the application's demo run.

Registries hold Dafny function values. A command handler is `Command -> Result<Event, AggregateError>`.
An event applier is `(Event, int) -> int`: it gives the new counter, and `Apply` stores it and
returns the aggregate itself, as the counter's appliers return `this`. Replay is a left fold
that stops at the first refused event. Because the source's appliers change the snapshot in
place, an aborted replay leaves the snapshot's counter as it was after the last event that was
applied. `ReplayOutcome.Aborted` records that counter. The code does not roll back the snapshot on an
abort, and neither does the model.

## Model

| member | source | states |
|---|---|---|
| `Engine.EmitEvent` | src/main/java/com/github/daggerok/App.java:39-47 | A null command is refused with "command may not be null" before any lookup. A command whose class has no handler is refused as not supported, carrying its class. |
| `Engine.ApplyEvent` | src/main/java/com/github/daggerok/App.java:51-60 | `apply` fails exactly when the event is null or its class has no applier. It reports "event may not be null" or "event handler cannot be found" with the class. |
| `Engine.HandleCommand` | src/main/java/com/github/daggerok/App.java:39-49 | `handle` succeeds exactly when the handler returns an event and that event's class has an applier. When the handler throws, that exception is what `handle` throws. |
| `Engine.Replay` | src/main/java/com/github/daggerok/App.java:62-70 | The `applyAll` fold of `apply` in list order. An empty list leaves the snapshot as it is. Replay completes if and only if no event in the list is null or unregistered, so any such event aborts it. |
| `Engine.ReplayAppend` | src/main/java/com/github/daggerok/App.java:65-69 | Replaying `E1 ++ E2` equals replaying `E2` from the result of replaying `E1`. If `E1` aborts, the whole replay aborts in the same way. |
| `Engine.FoldLeftKeepsAborted` | src/main/java/com/github/daggerok/App.java:75-76 | Once an `apply` inside `recreate`'s fold throws, the rest of the list does not change the outcome. |
| `Engine.RecreatedIsReplay` | src/main/java/com/github/daggerok/App.java:62-77 | `recreate` (a `foldLeft`) and `applyAll` (a loop) give the same outcome for every registry, counter and event list. |
| `Engine.FoldLeft` | src/main/java/com/github/daggerok/App.java:75-76 | vavr's `foldLeft`: an empty list gives back the seed, and a one-element list gives one step from the seed. |
| `Engine.FoldLeftLast` | src/main/java/com/github/daggerok/App.java:75-76 | `foldLeft` is a left fold: the last element is combined last, with the fold of everything before it. |
| `Engine.Recreated` | src/main/java/com/github/daggerok/App.java:72-77 | `recreate`'s fold of `apply` from the snapshot. An empty list returns the snapshot unchanged. When the first event is null or unregistered, the fold aborts with that event's error and the counter stays as it was. |
| `Engine.HandleAll` | src/main/java/com/github/daggerok/App.java:142-144 | Handling commands one after another. On success the log holds one entry per command, and its i-th entry is the event that the handler of the i-th command returned. |
| `Engine.HandledHistoryReplays` | src/main/java/com/github/daggerok/App.java:142-155 | For any registries, if handling a command sequence succeeds, replaying the events it emitted from the same start counter gives the same final counter. |
| `Counter.CounterAggregate.constructor` | src/main/java/com/github/daggerok/App.java:26-27 | A new aggregate has empty command and event maps and a zero counter. |
| `Counter.CounterAggregate.WithCommand` | src/main/java/com/github/daggerok/App.java:29-32 | Puts the handler under its class, replacing any earlier one (last write wins). It returns the same aggregate and leaves the event map and the counter alone. |
| `Counter.CounterAggregate.WithEvent` | src/main/java/com/github/daggerok/App.java:34-37 | Puts the applier under its class, replacing any earlier one. It returns the same aggregate and leaves the command map and the counter alone. |
| `Counter.CounterAggregate.Configure` | src/main/java/com/github/daggerok/App.java:110-130 | Registers the two counter handlers and the two counter appliers under their classes. The counter is unchanged. |
| `Counter.CounterAggregate.Handle` | src/main/java/com/github/daggerok/App.java:39-49 | On success the counter becomes `HandleCommand`'s value and the aggregate itself is returned. On any exception the counter is unchanged. The registries never change. |
| `Counter.CounterAggregate.Apply` | src/main/java/com/github/daggerok/App.java:51-60 | On success the counter becomes `ApplyEvent`'s value and the aggregate itself is returned. On a null or unregistered event the counter is unchanged. |
| `Counter.CounterAggregate.ApplyAll` | src/main/java/com/github/daggerok/App.java:62-70 | A null snapshot or null list is refused before anything changes. Otherwise the snapshot's counter ends as `Replay` says, including the partly applied counter after an abort. The result is the snapshot, or the first exception. |
| `Counter.CounterAggregate.Recreate` | src/main/java/com/github/daggerok/App.java:72-77 | Null checks as in `applyAll`. The snapshot then ends as the `foldLeft` of `apply` (`Recreated`) says. |
| `Counter.CounterAggregate.FoldApply` | src/main/java/com/github/daggerok/App.java:75-76 | Folds `apply` over the list with the snapshot as accumulator. The first exception stops the fold. |
| `Counter.HandleIncrementCounter` | src/main/java/com/github/daggerok/App.java:112-116 | The IncrementCounter handler emits an event exactly when the value is at least 1. That event is CounterIncremented with the same value. Otherwise it throws the domain-rule error. |
| `Counter.HandleDecrementCounter` | src/main/java/com/github/daggerok/App.java:121-125 | The DecrementCounter handler emits an event exactly when the value is at least 1. That event is CounterDecremented with the same value. Otherwise it throws the domain-rule error. |
| `Counter.ApplyCounterIncremented` | src/main/java/com/github/daggerok/App.java:117-120 | The CounterIncremented applier raises the counter by exactly the event's value. |
| `Counter.ApplyCounterDecremented` | src/main/java/com/github/daggerok/App.java:126-129 | The CounterDecremented applier undoes a CounterIncremented applier with the same value. |
| `Counter.ConfigureCommands` | src/main/java/com/github/daggerok/App.java:111-125 | After `configure`, the command map holds the two counter handlers under their classes. It gains exactly those two keys, and every other entry is kept. |
| `Counter.ConfigureEvents` | src/main/java/com/github/daggerok/App.java:117-129 | After `configure`, the event map holds the two counter appliers under their classes. It gains exactly those two keys, and every other entry is kept. |
| `Counter.ConfigureIsIdempotent` | src/main/java/com/github/daggerok/App.java:110-130 | Running `configure` twice registers the same as once. On a new aggregate it registers exactly the two counter command classes and the two counter event classes. |
| `Counter.HandleIncrement` | src/main/java/com/github/daggerok/App.java:112-120 | Once configured, `handle(IncrementCounter(v))` with `v < 1` fails with "increment command value should be positive". For `v >= 1` it gives `counter + v`, the same as `apply(CounterIncremented(v))`. |
| `Counter.HandleDecrement` | src/main/java/com/github/daggerok/App.java:121-129 | Once configured, `handle(DecrementCounter(v))` with `v < 1` fails with "decrement command value should be positive". For `v >= 1` it gives `counter - v`, the same as `apply(CounterDecremented(v))`. |
| `Counter.ReplayIsNetEffect` | src/main/java/com/github/daggerok/App.java:117-129 | Replaying counter events from counter `c` gives `c` plus the sum of the increments minus the sum of the decrements. |
| `Counter.DemoReplay` | src/test/java/com/github/daggerok/AppTest.java:39-45 | From any counter `c`, these all end at `c + 4`: handling increment 3, increment 2 and decrement 1 (which emits the three matching events), replaying those events, and recreating from them. |
| `Counter.DemoRun` | src/main/java/com/github/daggerok/App.java:141-161 | The application's run: the live aggregate, the `applyAll` replay and the `recreate` replay all end with counter 4, so the aggregates compare equal. |

## Left out

- Spring Boot start-up, `@Component` and `@PostConstruct` wiring, and SLF4J logging are hosting and output. `configure` is an explicit call here.
- `ConcurrentHashMap`: the maps are plain sequential maps, and concurrent access is not modelled.
- `ConcurrentHashMap.put` throws a NullPointerException for a null class or a null handler. `WithCommand` and `WithEvent` take neither, so that error path is not modelled. `configure`, the only caller, never passes null.
- `AbstractAggregate` and `CounterAggregate` are one class, because the model has no inheritance. The generic aggregate type `A` is fixed to the counter.
- Dispatch on the runtime class, and the unchecked casts, are replaced by a class tag on each value. Handlers read only the `value` field, so they are total. Registering a handler under a class it cannot accept would not compile in Java, and the model does not give it a meaning.
- An applier's result is modelled as the new counter of the aggregate that runs it, and `apply` returns that aggregate. An applier that returns some other aggregate, that throws, or that captured a different aggregate is not modelled. The counter's appliers do none of these.
- A handler that returns a null event is not modelled, because handlers return `Result`. The counter's handlers never return null.
- `counter` is a Java `Long`. It is an unbounded integer here, so overflow past 64 bits is not modelled.
- A null `Integer` payload, which would throw on unboxing in the handler or the applier, is not modelled. Payloads are always present 32-bit integers.
- Lombok `equals`, `hashCode` and `toString`: equality of two counter aggregates is equality of their `counter` fields, as `@EqualsAndHashCode(callSuper = false)` generates.
- The replay test builds its events with a factory `of`, but the event classes define `by`. The model uses the events' values only.
- The test scenario starts from a Spring-managed bean whose counter depends on context state. `DemoReplay` proves the `c + 4` result for every starting counter `c` instead.
