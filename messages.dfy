/**
 * The command and event value classes of the counter (App.java, IncrementCounter,
 * CounterIncremented, DecrementCounter, CounterDecremented) and the errors the runtime raises.
 *
 * The runtime dispatches on the Java class of a command or event; here that class is a tag,
 * and any class the counter does not know is `OtherCommand(name)` / `OtherEvent(name)`.
 */
module Messages {

  /** A Java `Integer` payload (32-bit, signed). */
  type Int32 = x: int | -0x8000_0000 <= x < 0x8000_0000

  /** The runtime class of a command. */
  datatype CommandKind = IncrementCounter | DecrementCounter | OtherCommand(name: string)

  /** The runtime class of an event. */
  datatype EventKind = CounterIncremented | CounterDecremented | OtherEvent(name: string)

  /** An immutable command value: its class and its `value` field. */
  datatype Command = Command(kind: CommandKind, value: Int32)

  /** An immutable event value: its class and its `value` field. */
  datatype Event = Event(kind: EventKind, value: Int32)

  /**
   * What the runtime throws. `NullArgument` is the NullPointerException of
   * `Objects.requireNonNull`; the other three are the IllegalStateExceptions for an
   * unregistered command class, an unregistered event class and a failed business rule.
   */
  datatype AggregateError =
    | NullArgument(message: string)
    | CommandNotSupported(command: CommandKind)
    | EventHandlerNotFound(event: EventKind)
    | DomainRuleViolation(reason: string)

  const CommandMayNotBeNull := "command may not be null"
  const EventMayNotBeNull := "event may not be null"
  const SnapshotMayNotBeNull := "snapshot may not be null"
  const EventsMayNotBeNull := "events may not be null"
  const IncrementValueShouldBePositive := "increment command value should be positive"
  const DecrementValueShouldBePositive := "decrement command value should be positive"
}
