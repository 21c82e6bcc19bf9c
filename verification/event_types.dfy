/** Values the event bus works on: events, handler descriptors and the
    outcomes of one handler decision.

    The bus in EventManager.java discovers handlers by reflection; here every
    declared method of a listener's class is a `Handler` value that carries
    what the reflective calls would read: the `@EventListener` annotation (if
    present), its `event()` and `priority().getLevel()`, and the declared
    parameter types. */
module EventTypes {

  /** Identity of a registered listener object. Equality stands for Java's
      `equals`, which `CopyOnWriteArrayList.contains` and `remove` use. */
  type ListenerId = nat

  /** Identity of a Java class (`getClass()`, `getParameterTypes()[i]`). */
  type ClassId = nat

  /** The `EventList` enum: the two special constants and the other kinds. */
  datatype EventList = NONE | ALL | Kind(tag: nat)

  /** A dispatched event: the kind it reports through `getEvent()` and its
      runtime class. What handlers do to its fields is not modelled. */
  datatype Event = Event(kind: EventList, runtimeClass: ClassId)

  /** The `@EventListener` annotation of a method, if present. */
  datatype Annotation = Absent | Present(event: EventList, level: int)

  /** One declared method of a listener's class. */
  datatype Handler = Handler(name: string, annotation: Annotation, params: seq<ClassId>)

  predicate Annotated(h: Handler) {
    h.annotation.Present?
  }

  /** The priority level the sort compares; only asked of annotated handlers. */
  function Level(h: Handler): int
    requires Annotated(h)
  {
    h.annotation.level
  }

  /** A method with more than one parameter makes `call` throw. */
  predicate TooManyParams(h: Handler) {
    |h.params| > 1
  }

  /** Why a handler decision ended in a reported (printed, then swallowed)
      exception. */
  datatype Fault =
    | MissingAnnotation   // `getDeclaredAnnotation(..)` is null: NullPointerException
    | TypeMismatch        // "The event does not match!"
    | ArityMismatch       // `handle.invoke(listener)` on a handler with two or more parameters
    | IncorrectUsage      // "Incorrect usage!"

  /** What `callEvent` does with one handler. */
  datatype Outcome =
    | InvokeNoArg         // `handle.invoke(listener)`
    | InvokeWithEvent     // `handle.invoke(listener, event)`
    | Skip                // nothing happens
    | ReportedError(fault: Fault)

  /** One handler call of a dispatch, in the order the dispatch made it. */
  datatype Entry = Entry(listener: ListenerId, handler: Handler, outcome: Outcome)
}
