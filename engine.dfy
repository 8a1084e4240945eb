/**
 * The aggregate runtime of AbstractAggregate as pure functions over its two registries:
 * command dispatch (`handle`), event dispatch (`apply`) and replay (`applyAll`, `recreate`).
 * The state an applier changes is the aggregate's counter, an unbounded integer.
 */
module Engine {
  import opened Wrappers
  import opened Messages

  /** A command handler validates a command and returns the one event it stands for, or throws. */
  type CommandHandler = Command -> Result<Event, AggregateError>

  /** An event applier gives the aggregate's counter after the event. */
  type EventApplier = (Event, int) -> int

  /** The `commands` map: command class to handler. */
  type CommandRegistry = map<CommandKind, CommandHandler>

  /** The `events` map: event class to applier. */
  type EventRegistry = map<EventKind, EventApplier>

  /** `apply` refuses this event: it is null or its class has no applier. */
  predicate Rejects(events: EventRegistry, event: Option<Event>)
  {
    event.None? || event.value.kind !in events
  }

  /** The first half of `handle`: null check, handler lookup, and the handler's verdict. */
  function EmitEvent(commands: CommandRegistry, command: Option<Command>): (r: Result<Event, AggregateError>)
    ensures command.None? ==> r == Failure(NullArgument(CommandMayNotBeNull))
    ensures command.Some? && command.value.kind !in commands ==> r == Failure(CommandNotSupported(command.value.kind))
  {
    match command
    case None => Failure(NullArgument(CommandMayNotBeNull))
    case Some(c) =>
      if c.kind !in commands then Failure(CommandNotSupported(c.kind))
      else commands[c.kind](c)
  }

  /** `apply`: the counter after the event, or why the event is refused. */
  function ApplyEvent(events: EventRegistry, counter: int, event: Option<Event>): (r: Result<int, AggregateError>)
    ensures r.Failure? <==> Rejects(events, event)
    ensures event.None? ==> r == Failure(NullArgument(EventMayNotBeNull))
    ensures event.Some? && event.value.kind !in events ==> r == Failure(EventHandlerNotFound(event.value.kind))
  {
    match event
    case None => Failure(NullArgument(EventMayNotBeNull))
    case Some(e) =>
      if e.kind !in events then Failure(EventHandlerNotFound(e.kind))
      else Success(events[e.kind](e, counter))
  }

  /** `handle`: emit the command's event, then `apply` it. */
  function HandleCommand(commands: CommandRegistry, events: EventRegistry, counter: int, command: Option<Command>)
    : (r: Result<int, AggregateError>)
    ensures r.Success? <==> EmitEvent(commands, command).Success? && !Rejects(events, Some(EmitEvent(commands, command).value))
    ensures r.Failure? && EmitEvent(commands, command).Failure? ==> r.error == EmitEvent(commands, command).error
  {
    match EmitEvent(commands, command)
    case Failure(f) => Failure(f)
    case Success(e) => ApplyEvent(events, counter, Some(e))
  }

  /**
   * The outcome of a replay. Appliers change the aggregate in place, so an aborted replay
   * still leaves the counter as it was after the last event that was applied.
   */
  datatype ReplayOutcome = Replayed(counter: int) | Aborted(counter: int, failure: AggregateError)

  /** A strict left fold of `apply` over the events, stopping at the first refused one. */
  function Replay(events: EventRegistry, counter: int, es: seq<Option<Event>>): (r: ReplayOutcome)
    ensures es == [] ==> r == Replayed(counter)
    ensures r.Replayed? <==> forall i :: 0 <= i < |es| ==> !Rejects(events, es[i])
    decreases |es|
  {
    if es == [] then Replayed(counter)
    else
      match ApplyEvent(events, counter, es[0])
      case Failure(f) => Aborted(counter, f)
      case Success(next) =>
        assert forall i :: 1 <= i < |es| ==> es[i] == es[1..][i - 1];
        Replay(events, next, es[1..])
  }

  /** Replay is decomposable: replaying `first + second` replays `second` from where `first` left off. */
  lemma {:induction false} ReplayAppend(events: EventRegistry, counter: int, first: seq<Option<Event>>, second: seq<Option<Event>>)
    ensures Replay(events, counter, first + second) ==
              match Replay(events, counter, first)
              case Aborted(_, _) => Replay(events, counter, first)
              case Replayed(mid) => Replay(events, mid, second)
    decreases |first|
  {
    if first == [] {
      assert first + second == second;
    } else {
      assert (first + second)[0] == first[0];
      assert (first + second)[1..] == first[1..] + second;
      match ApplyEvent(events, counter, first[0])
      case Failure(_) =>
      case Success(next) => ReplayAppend(events, next, first[1..], second);
    }
  }

  /** vavr's `List.foldLeft`: a left fold over a sequence. */
  function FoldLeft<A, T>(acc: A, xs: seq<T>, f: (A, T) -> A): (r: A)
    ensures xs == [] ==> r == acc
    ensures |xs| == 1 ==> r == f(acc, xs[0])
    decreases |xs|
  {
    if xs == [] then acc else FoldLeft(f(acc, xs[0]), xs[1..], f)
  }

  /** A left fold applies `f` to the last element last, after folding everything before it. */
  lemma {:induction false} FoldLeftLast<A, T>(acc: A, xs: seq<T>, f: (A, T) -> A)
    requires xs != []
    ensures FoldLeft(acc, xs, f) == f(FoldLeft(acc, xs[..|xs| - 1], f), xs[|xs| - 1])
    decreases |xs|
  {
    if |xs| > 1 {
      FoldLeftLast(f(acc, xs[0]), xs[1..], f);
      assert xs[1..][..|xs| - 2] == xs[..|xs| - 1][1..];
      assert xs[..|xs| - 1][0] == xs[0];
    }
  }

  /** One step of `recreate`'s fold: `apply`, unless an earlier step already threw. */
  function ReplayStep(events: EventRegistry, outcome: ReplayOutcome, event: Option<Event>): ReplayOutcome
  {
    match outcome
    case Aborted(_, _) => outcome
    case Replayed(counter) =>
      match ApplyEvent(events, counter, event)
      case Failure(f) => Aborted(counter, f)
      case Success(next) => Replayed(next)
  }

  /** `recreate` as written: `foldLeft(snapshot, AbstractAggregate::apply)`. */
  function Recreated(events: EventRegistry, counter: int, es: seq<Option<Event>>): (r: ReplayOutcome)
    ensures es == [] ==> r == Replayed(counter)
    ensures es != [] && Rejects(events, es[0]) ==> r == Aborted(counter, ApplyEvent(events, counter, es[0]).error)
  {
    var folded := FoldLeft(Replayed(counter), es, (o, e) => ReplayStep(events, o, e));
    if es != [] && Rejects(events, es[0]) then
      FoldLeftKeepsAborted(events, counter, ApplyEvent(events, counter, es[0]).error, es[1..]);
      folded
    else
      folded
  }

  /** Once a step throws, the rest of the fold leaves the outcome alone. */
  lemma {:induction false} FoldLeftKeepsAborted(events: EventRegistry, counter: int, failure: AggregateError, es: seq<Option<Event>>)
    ensures FoldLeft(Aborted(counter, failure), es, (o, e) => ReplayStep(events, o, e)) == Aborted(counter, failure)
    decreases |es|
  {
    if es != [] {
      FoldLeftKeepsAborted(events, counter, failure, es[1..]);
    }
  }

  /** `applyAll` (a loop) and `recreate` (a fold) replay the same way. */
  lemma {:induction false} RecreatedIsReplay(events: EventRegistry, counter: int, es: seq<Option<Event>>)
    ensures Recreated(events, counter, es) == Replay(events, counter, es)
    decreases |es|
  {
    if es != [] {
      match ApplyEvent(events, counter, es[0])
      case Failure(f) => FoldLeftKeepsAborted(events, counter, f, es[1..]);
      case Success(next) => RecreatedIsReplay(events, next, es[1..]);
    }
  }

  /** What handling a sequence of commands one after another produced: final counter and events emitted. */
  datatype History = History(counter: int, emitted: seq<Option<Event>>)

  /** `handle` called on each command in turn, collecting the event each one emitted; stops at the first exception. */
  function HandleAll(commands: CommandRegistry, events: EventRegistry, counter: int, cs: seq<Option<Command>>)
    : (r: Result<History, AggregateError>)
    ensures r.Success? ==> |r.value.emitted| == |cs|
    ensures r.Success? ==> forall i :: 0 <= i < |cs| ==>
              EmitEvent(commands, cs[i]).Success? && r.value.emitted[i] == Some(EmitEvent(commands, cs[i]).value)
    decreases |cs|
  {
    if cs == [] then Success(History(counter, []))
    else
      match HandleCommand(commands, events, counter, cs[0])
      case Failure(f) => Failure(f)
      case Success(next) =>
        match HandleAll(commands, events, next, cs[1..])
        case Failure(f) => Failure(f)
        case Success(h) =>
          assert forall i :: 1 <= i < |cs| ==> cs[i] == cs[1..][i - 1];
          Success(History(h.counter, [Some(EmitEvent(commands, cs[0]).value)] + h.emitted))
  }

  /** State can be rebuilt from history: replaying the events that handling emitted gives the same counter. */
  lemma {:induction false} HandledHistoryReplays(commands: CommandRegistry, events: EventRegistry, counter: int, cs: seq<Option<Command>>)
    requires HandleAll(commands, events, counter, cs).Success?
    ensures Replay(events, counter, HandleAll(commands, events, counter, cs).value.emitted)
              == Replayed(HandleAll(commands, events, counter, cs).value.counter)
    decreases |cs|
  {
    if cs != [] {
      var next := HandleCommand(commands, events, counter, cs[0]).value;
      var e := EmitEvent(commands, cs[0]).value;
      var h := HandleAll(commands, events, next, cs[1..]).value;
      HandledHistoryReplays(commands, events, next, cs[1..]);
      assert ([Some(e)] + h.emitted)[1..] == h.emitted;
    }
  }
}
