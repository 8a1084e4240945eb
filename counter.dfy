/**
 * CounterAggregate: the aggregate object of App.java. It holds the two registries of
 * AbstractAggregate and the `counter` of CounterAggregate, updates them in place, and is
 * configured with two command handlers and two event appliers.
 */
module Counter {
  import opened Wrappers
  import opened Messages
  import opened Engine

  /** The IncrementCounter handler: a value below 1 is refused, otherwise CounterIncremented by it. */
  function HandleIncrementCounter(c: Command): (r: Result<Event, AggregateError>)
    ensures r.Success? <==> c.value >= 1
    ensures r.Success? ==> r.value.kind == CounterIncremented && r.value.value == c.value
    ensures r.Failure? ==> r.error.DomainRuleViolation?
  {
    if c.value < 1 then Failure(DomainRuleViolation(IncrementValueShouldBePositive))
    else Success(Event(CounterIncremented, c.value))
  }

  /** The DecrementCounter handler: a value below 1 is refused, otherwise CounterDecremented by it. */
  function HandleDecrementCounter(c: Command): (r: Result<Event, AggregateError>)
    ensures r.Success? <==> c.value >= 1
    ensures r.Success? ==> r.value.kind == CounterDecremented && r.value.value == c.value
    ensures r.Failure? ==> r.error.DomainRuleViolation?
  {
    if c.value < 1 then Failure(DomainRuleViolation(DecrementValueShouldBePositive))
    else Success(Event(CounterDecremented, c.value))
  }

  /** The CounterIncremented applier: adds the event's value. */
  function ApplyCounterIncremented(e: Event, counter: int): (r: int)
    ensures r - counter == e.value
  {
    counter + e.value
  }

  /** The CounterDecremented applier: subtracts the event's value, undoing an increment by the same value. */
  function ApplyCounterDecremented(e: Event, counter: int): (r: int)
    ensures ApplyCounterIncremented(e, r) == counter
  {
    counter - e.value
  }

  /** The command registry after `configure`. */
  function ConfigureCommands(commands: CommandRegistry): (r: CommandRegistry)
    ensures CounterCommandsRegistered(r)
    ensures r.Keys == commands.Keys + {IncrementCounter, DecrementCounter}
    ensures forall k :: k in commands && k != IncrementCounter && k != DecrementCounter ==> r[k] == commands[k]
  {
    commands[IncrementCounter := HandleIncrementCounter][DecrementCounter := HandleDecrementCounter]
  }

  /** The event registry after `configure`. */
  function ConfigureEvents(events: EventRegistry): (r: EventRegistry)
    ensures CounterEventsRegistered(r)
    ensures r.Keys == events.Keys + {CounterIncremented, CounterDecremented}
    ensures forall k :: k in events && k != CounterIncremented && k != CounterDecremented ==> r[k] == events[k]
  {
    events[CounterIncremented := ApplyCounterIncremented][CounterDecremented := ApplyCounterDecremented]
  }

  /** The counter's two command handlers are registered under their classes. */
  ghost predicate CounterCommandsRegistered(commands: CommandRegistry)
  {
    && IncrementCounter in commands && commands[IncrementCounter] == HandleIncrementCounter
    && DecrementCounter in commands && commands[DecrementCounter] == HandleDecrementCounter
  }

  /** The counter's two event appliers are registered under their classes. */
  ghost predicate CounterEventsRegistered(events: EventRegistry)
  {
    && CounterIncremented in events && events[CounterIncremented] == ApplyCounterIncremented
    && CounterDecremented in events && events[CounterDecremented] == ApplyCounterDecremented
  }

  class CounterAggregate {
    var commands: CommandRegistry
    var events: EventRegistry
    var counter: int

    /** A new aggregate: empty registries and a zero counter. */
    constructor ()
      ensures commands == map[] && events == map[] && counter == 0
    {
      commands := map[];
      events := map[];
      counter := 0;
    }

    /** Registers a command handler under a class, replacing any earlier one; returns this aggregate. */
    method WithCommand(kind: CommandKind, handler: CommandHandler) returns (self: CounterAggregate)
      modifies this
      ensures self == this
      ensures commands == old(commands)[kind := handler]
      ensures events == old(events) && counter == old(counter)
    {
      commands := commands[kind := handler];
      self := this;
    }

    /** Registers an event applier under a class, replacing any earlier one; returns this aggregate. */
    method WithEvent(kind: EventKind, applier: EventApplier) returns (self: CounterAggregate)
      modifies this
      ensures self == this
      ensures events == old(events)[kind := applier]
      ensures commands == old(commands) && counter == old(counter)
    {
      events := events[kind := applier];
      self := this;
    }

    /** Registers the counter's handlers and appliers; the counter is not touched. */
    method Configure()
      modifies this
      ensures commands == ConfigureCommands(old(commands))
      ensures events == ConfigureEvents(old(events))
      ensures counter == old(counter)
      ensures CounterCommandsRegistered(commands) && CounterEventsRegistered(events)
    {
      var self := WithCommand(IncrementCounter, HandleIncrementCounter);
      self := self.WithEvent(CounterIncremented, ApplyCounterIncremented);
      self := self.WithCommand(DecrementCounter, HandleDecrementCounter);
      self := self.WithEvent(CounterDecremented, ApplyCounterDecremented);
    }

    /**
     * `handle`: on success the counter is what HandleCommand says and this aggregate is
     * returned; on any exception the counter is unchanged. The registries never change.
     */
    method Handle(command: Option<Command>) returns (r: Result<CounterAggregate, AggregateError>)
      modifies this
      ensures commands == old(commands) && events == old(events)
      ensures var expected := HandleCommand(old(commands), old(events), old(counter), command);
              && counter == (if expected.Success? then expected.value else old(counter))
              && r == (if expected.Success? then Success(this) else Failure(expected.error))
    {
      if command.None? {
        return Failure(NullArgument(CommandMayNotBeNull));
      }
      var c := command.value;
      if c.kind !in commands {
        return Failure(CommandNotSupported(c.kind));
      }
      var handler := commands[c.kind];
      var event := handler(c);
      if event.Failure? {
        return Failure(event.error);
      }
      r := Apply(Some(event.value));
    }

    /**
     * `apply`: on success the counter is what ApplyEvent says and this aggregate is
     * returned; on an exception the counter is unchanged. The registries never change.
     */
    method Apply(event: Option<Event>) returns (r: Result<CounterAggregate, AggregateError>)
      modifies this
      ensures commands == old(commands) && events == old(events)
      ensures var expected := ApplyEvent(old(events), old(counter), event);
              && counter == (if expected.Success? then expected.value else old(counter))
              && r == (if expected.Success? then Success(this) else Failure(expected.error))
    {
      if event.None? {
        return Failure(NullArgument(EventMayNotBeNull));
      }
      var e := event.value;
      if e.kind !in events {
        return Failure(EventHandlerNotFound(e.kind));
      }
      var applier := events[e.kind];
      counter := applier(e, counter);
      return Success(this);
    }

    /**
     * `applyAll`: applies the events to the snapshot one by one, in list order. The snapshot
     * ends as Replay says, also when an event is refused part-way (it stays partly updated).
     */
    method ApplyAll(snapshot: CounterAggregate?, eventList: Option<seq<Option<Event>>>)
      returns (r: Result<CounterAggregate, AggregateError>)
      modifies snapshot
      ensures snapshot == null ==> r == Failure(NullArgument(SnapshotMayNotBeNull))
      ensures snapshot != null && eventList.None? ==>
                r == Failure(NullArgument(EventsMayNotBeNull)) && snapshot.counter == old(snapshot.counter)
      ensures snapshot != null ==> snapshot.commands == old(snapshot.commands) && snapshot.events == old(snapshot.events)
      ensures snapshot != null && eventList.Some? ==>
                var outcome := Replay(old(snapshot.events), old(snapshot.counter), eventList.value);
                && snapshot.counter == outcome.counter
                && r == (if outcome.Replayed? then Success(snapshot) else Failure(outcome.failure))
    {
      if snapshot == null {
        return Failure(NullArgument(SnapshotMayNotBeNull));
      }
      if eventList.None? {
        return Failure(NullArgument(EventsMayNotBeNull));
      }
      var es := eventList.value;
      var result := snapshot;
      var i := 0;
      while i < |es|
        invariant 0 <= i <= |es|
        invariant result == snapshot
        invariant snapshot.commands == old(snapshot.commands) && snapshot.events == old(snapshot.events)
        invariant Replay(snapshot.events, snapshot.counter, es[i..]) == Replay(snapshot.events, old(snapshot.counter), es)
      {
        assert es[i..][0] == es[i] && es[i..][1..] == es[i + 1..];
        var step := result.Apply(es[i]);
        if step.Failure? {
          return Failure(step.error);
        }
        result := step.value;
        i := i + 1;
      }
      return Success(result);
    }

    /**
     * `recreate`: the same replay written as a fold over the list. The snapshot ends as
     * Recreated says, also when an event is refused part-way.
     */
    static method Recreate(snapshot: CounterAggregate?, eventList: Option<seq<Option<Event>>>)
      returns (r: Result<CounterAggregate, AggregateError>)
      modifies snapshot
      ensures snapshot == null ==> r == Failure(NullArgument(SnapshotMayNotBeNull))
      ensures snapshot != null && eventList.None? ==>
                r == Failure(NullArgument(EventsMayNotBeNull)) && snapshot.counter == old(snapshot.counter)
      ensures snapshot != null ==> snapshot.commands == old(snapshot.commands) && snapshot.events == old(snapshot.events)
      ensures snapshot != null && eventList.Some? ==>
                var outcome := Recreated(old(snapshot.events), old(snapshot.counter), eventList.value);
                && snapshot.counter == outcome.counter
                && r == (if outcome.Replayed? then Success(snapshot) else Failure(outcome.failure))
    {
      if snapshot == null {
        return Failure(NullArgument(SnapshotMayNotBeNull));
      }
      if eventList.None? {
        return Failure(NullArgument(EventsMayNotBeNull));
      }
      r := FoldApply(snapshot, eventList.value);
    }

    /** The fold behind `recreate`: `apply` on the accumulator for the head, then fold the tail. */
    static method FoldApply(acc: CounterAggregate, es: seq<Option<Event>>) returns (r: Result<CounterAggregate, AggregateError>)
      modifies acc
      ensures acc.commands == old(acc.commands) && acc.events == old(acc.events)
      ensures var outcome := Recreated(old(acc.events), old(acc.counter), es);
              && acc.counter == outcome.counter
              && r == (if outcome.Replayed? then Success(acc) else Failure(outcome.failure))
      decreases |es|
    {
      if es == [] {
        return Success(acc);
      }
      var step := acc.Apply(es[0]);
      if step.Failure? {
        FoldLeftKeepsAborted(acc.events, acc.counter, step.error, es[1..]);
        return Failure(step.error);
      }
      r := FoldApply(step.value, es[1..]);
    }
  }

  /** Running `configure` again changes nothing, and it registers exactly the counter's types on a new aggregate. */
  lemma ConfigureIsIdempotent(commands: CommandRegistry, events: EventRegistry)
    ensures ConfigureCommands(ConfigureCommands(commands)) == ConfigureCommands(commands)
    ensures ConfigureEvents(ConfigureEvents(events)) == ConfigureEvents(events)
    ensures ConfigureCommands(map[]).Keys == {IncrementCounter, DecrementCounter}
    ensures ConfigureEvents(map[]).Keys == {CounterIncremented, CounterDecremented}
  {
  }

  /**
   * Validation gating and handle = apply . handler for IncrementCounter: a value below 1 throws
   * the domain error, otherwise the counter grows by the value, exactly as applying
   * CounterIncremented would.
   */
  lemma HandleIncrement(commands: CommandRegistry, events: EventRegistry, counter: int, v: Int32)
    requires CounterCommandsRegistered(commands) && CounterEventsRegistered(events)
    ensures HandleCommand(commands, events, counter, Some(Command(IncrementCounter, v)))
              == if v < 1 then Failure(DomainRuleViolation(IncrementValueShouldBePositive)) else Success(counter + v)
    ensures v >= 1 ==> HandleCommand(commands, events, counter, Some(Command(IncrementCounter, v)))
                         == ApplyEvent(events, counter, Some(Event(CounterIncremented, v)))
  {
  }

  /** The same for DecrementCounter: below 1 throws, otherwise the counter shrinks by the value. */
  lemma HandleDecrement(commands: CommandRegistry, events: EventRegistry, counter: int, v: Int32)
    requires CounterCommandsRegistered(commands) && CounterEventsRegistered(events)
    ensures HandleCommand(commands, events, counter, Some(Command(DecrementCounter, v)))
              == if v < 1 then Failure(DomainRuleViolation(DecrementValueShouldBePositive)) else Success(counter - v)
    ensures v >= 1 ==> HandleCommand(commands, events, counter, Some(Command(DecrementCounter, v)))
                         == ApplyEvent(events, counter, Some(Event(CounterDecremented, v)))
  {
  }

  /** An event the counter understands. */
  predicate IsCounterEvent(e: Option<Event>)
  {
    e.Some? && (e.value.kind == CounterIncremented || e.value.kind == CounterDecremented)
  }

  /** The net change a list of events makes: + each increment, - each decrement. */
  function NetEffect(es: seq<Option<Event>>): int
    decreases |es|
  {
    if es == [] then 0
    else
      (match es[0]
       case Some(Event(CounterIncremented, v)) => v as int
       case Some(Event(CounterDecremented, v)) => -(v as int)
       case _ => 0)
      + NetEffect(es[1..])
  }

  /** Replaying counter events adds their net effect to the snapshot's counter. */
  lemma {:induction false} ReplayIsNetEffect(events: EventRegistry, counter: int, es: seq<Option<Event>>)
    requires CounterEventsRegistered(events)
    requires forall i :: 0 <= i < |es| ==> IsCounterEvent(es[i])
    ensures Replay(events, counter, es) == Replayed(counter + NetEffect(es))
    decreases |es|
  {
    if es != [] {
      var next := ApplyEvent(events, counter, es[0]).value;
      assert forall i :: 0 <= i < |es| - 1 ==> es[1..][i] == es[i + 1];
      ReplayIsNetEffect(events, next, es[1..]);
    }
  }

  /** The commands of the demo run: increment by 3, increment by 2, decrement by 1. */
  function DemoCommands(): seq<Option<Command>>
  {
    [Some(Command(IncrementCounter, 3)), Some(Command(IncrementCounter, 2)), Some(Command(DecrementCounter, 1))]
  }

  /** The events of the demo run: incremented by 3, incremented by 2, decremented by 1. */
  function DemoEvents(): seq<Option<Event>>
  {
    [Some(Event(CounterIncremented, 3)), Some(Event(CounterIncremented, 2)), Some(Event(CounterDecremented, 1))]
  }

  /** Handling the demo commands from any counter c emits the demo events and ends at c + 4; replaying them does too. */
  lemma DemoReplay(commands: CommandRegistry, events: EventRegistry, c: int)
    requires CounterCommandsRegistered(commands) && CounterEventsRegistered(events)
    ensures HandleAll(commands, events, c, DemoCommands()) == Success(History(c + 4, DemoEvents()))
    ensures Replay(events, c, DemoEvents()) == Replayed(c + 4)
    ensures Recreated(events, c, DemoEvents()) == Replayed(c + 4)
  {
    var inc3, inc2, dec1 := Command(IncrementCounter, 3), Command(IncrementCounter, 2), Command(DecrementCounter, 1);
    HandleIncrement(commands, events, c, 3);
    HandleIncrement(commands, events, c + 3, 2);
    HandleDecrement(commands, events, c + 5, 1);
    assert HandleAll(commands, events, c + 4, []) == Success(History(c + 4, []));
    assert EmitEvent(commands, Some(dec1)) == Success(Event(CounterDecremented, 1));
    assert EmitEvent(commands, Some(inc2)) == Success(Event(CounterIncremented, 2));
    assert EmitEvent(commands, Some(inc3)) == Success(Event(CounterIncremented, 3));
    assert DemoEvents()[2..] == [Some(Event(CounterDecremented, 1))];
    assert DemoEvents()[1..] == [Some(Event(CounterIncremented, 2))] + DemoEvents()[2..];
    assert DemoEvents() == [Some(Event(CounterIncremented, 3))] + DemoEvents()[1..];
    assert [Some(dec1)][1..] == [];
    assert [Some(Event(CounterDecremented, 1))] + [] == DemoEvents()[2..];
    assert HandleAll(commands, events, c + 5, [Some(dec1)]) == Success(History(c + 4, DemoEvents()[2..]));
    assert [Some(inc2), Some(dec1)][1..] == [Some(dec1)];
    assert HandleAll(commands, events, c + 3, [Some(inc2), Some(dec1)]) == Success(History(c + 4, DemoEvents()[1..]));
    assert DemoCommands()[1..] == [Some(inc2), Some(dec1)];
    ReplayIsNetEffect(events, c, DemoEvents());
    RecreatedIsReplay(events, c, DemoEvents());
  }

  /**
   * The demo run of the application: handle the three commands on a configured aggregate,
   * then rebuild a fresh configured aggregate with `applyAll` and another with `recreate`.
   * All three end with the same counter, so the aggregates compare equal.
   */
  method DemoRun() returns (live: int, replayed: int, recreated: int)
    ensures live == 4 && replayed == 4 && recreated == 4
  {
    var aggregate := new CounterAggregate();
    aggregate.Configure();
    var r := aggregate.Handle(Some(Command(IncrementCounter, 3)));
    r := aggregate.Handle(Some(Command(IncrementCounter, 2)));
    r := aggregate.Handle(Some(Command(DecrementCounter, 1)));
    live := aggregate.counter;

    var snapshot := new CounterAggregate();
    snapshot.Configure();
    DemoReplay(snapshot.commands, snapshot.events, 0);
    r := snapshot.ApplyAll(snapshot, Some(DemoEvents()));
    replayed := snapshot.counter;

    var snapshot2 := new CounterAggregate();
    snapshot2.Configure();
    DemoReplay(snapshot2.commands, snapshot2.events, 0);
    r := CounterAggregate.Recreate(snapshot2, Some(DemoEvents()));
    recreated := snapshot2.counter;
  }
}
