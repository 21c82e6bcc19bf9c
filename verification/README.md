# EventSystem dispatch core in Dafny

This project models the in-process event bus of `nep/timeline/EventSystem/EventManager.java`.
Listener objects are registered in a process-wide list. `call(event)` walks that list. For each
listener it sorts the declared methods of the listener's class by the priority level of their
`@EventListener` annotation. It then runs `callEvent` on each annotated method. `callEvent`
decides from the annotation's `event()` kind, the parameter count and the parameter class
whether the method is invoked with the event, invoked without argument, skipped, or ends in a
reported (printed and swallowed) exception.

Files and modules:

- `event_types.dfy` (`EventTypes`): events, handler descriptors, outcomes and trace entries.
  A Java `Method` becomes a `Handler` value: its name, its annotation (absent, or `event()`
  with the integer level of `priority()`), and its parameter classes.
- `listener_list.dfy` (`ListenerList`): the registry's steps as functions on sequences,
  with their lemmas. `AddAll` is `addListener`, `RemoveAll` is `removeListener`, and
  `Without` is the filter that `RemoveAll` is proved equal to.
- `handler_match.dfy` (`HandlerMatch`): the decision of `callEvent` as a total function.
- `priority_sort.dfy` (`PrioritySort`): a stable sort by level, and the comparator as written.
- `dispatch_plan.dfy` (`DispatchPlan`): sequential dispatch as a function. `Plan` lists the
  (listener, method) steps in the order `call` reaches them. `FirstTooMany` is the step where
  `call` throws. `Dispatch` gives the resulting trace and how the call ends.
- `event_manager.dfy` (`EventSystem`): class `EventManager` with a `listeners: seq` field.
  `AddListener` and `RemoveListener` are loops over their arguments that update the field;
  `Reset` empties the field. `Call` is the nested dispatch loop, with the per-listener inner loop in
  `CallListener`. Each method is proved against the functions above.

Behaviour of the code that the model keeps:

- A method with more than one parameter makes `call` throw (line 118). The throw ends the
  whole dispatch, not just that handler's call.
- A class mismatch under an explicit kind (line 50) is thrown inside `callEvent` and caught
  there (lines 74-76). It becomes `ReportedError(TypeMismatch)`, and dispatch goes on.
- A `NONE` handler that does not take exactly one parameter is reported as "Incorrect usage"
  when the event's own kind is `NONE` (line 65-67). Otherwise it is skipped silently.
- Registry membership uses `equals` (`contains`, `remove`). Equality of `ListenerId` stands
  for `equals`.

## Model

| member | source | states |
|---|---|---|
| `HandlerMatch.CallEvent` | nep/timeline/EventSystem/EventManager.java:37-78 | decision table as if-and-only-ifs: unannotated is a reported error; invoked with the event iff exactly one parameter whose class is the event's runtime class and the kind is NONE, ALL or the event's kind; invoked without argument iff no parameter and kind ALL or the event's kind (never NONE); type mismatch reported iff kind selected and one parameter of another class; arity error iff kind selected and 2+ parameters; "Incorrect usage" iff handler and event both NONE and not one parameter; skipped in every other case |
| `HandlerMatch.InvocationNeedsMatch` | nep/timeline/EventSystem/EventManager.java:44-64 | an invocation with the event means the parameter list is exactly the event's class (no subclass match); an invocation without argument means no parameter and kind ALL or the event's kind |
| `HandlerMatch.WildcardIgnoresKind` | nep/timeline/EventSystem/EventManager.java:44-52 | an ALL handler with one parameter decides the same for any two events of the same class, whatever kinds they report, and is either invoked with the event or reports a type mismatch |
| `ListenerList.AddOne` | nep/timeline/EventSystem/EventManager.java:27-28 | one pass of the loop keeps the old entries where they were and grows the list by at most one; afterwards the list holds exactly the old listeners and `x`; a duplicate-free list stays duplicate-free |
| `ListenerList.AddAll` | nep/timeline/EventSystem/EventManager.java:24-29 | old entries keep their positions; membership afterwards is old plus arguments; every new entry is an argument not present before; no duplicates is preserved |
| `ListenerList.AddAllKeepsArgumentOrder` | nep/timeline/EventSystem/EventManager.java:26-28 | new listeners appear at the end in the order of their first occurrence among the arguments |
| `ListenerList.AddAllPresent` | nep/timeline/EventSystem/EventManager.java:27 | adding only already-registered listeners changes nothing |
| `ListenerList.AddAllIdempotent` | nep/timeline/EventSystem/EventManager.java:24-29 | repeating the same `addListener` call leaves the registry as the first call left it |
| `ListenerList.AddAllOnce` | nep/timeline/EventSystem/EventManager.java:24-29 | on a duplicate-free registry, every registered or added listener occurs exactly once afterwards, even if passed several times |
| `ListenerList.RemoveFirst` | nep/timeline/EventSystem/EventManager.java:34 | `CopyOnWriteArrayList.remove(Object)`: an absent element changes nothing; a present one shortens the list by one, and exactly one occurrence leaves the multiset |
| `ListenerList.Without` | nep/timeline/EventSystem/EventManager.java:31-35 | reference filter: keeps exactly the listeners not given, and keeps the list duplicate-free |
| `ListenerList.RemoveAll` | nep/timeline/EventSystem/EventManager.java:33-34 | `Arrays.asList(projects).forEach(listeners::remove)`: each argument removes at most one occurrence, so the result is a sub-multiset of the registry and at most one entry shorter per argument; the full meaning is in `RemoveAllFilters` and `RemoveAllAbsent` |
| `ListenerList.RemoveAllFilters` | nep/timeline/EventSystem/EventManager.java:31-35 | on a duplicate-free registry, `removeListener` equals the filter: none of the given listeners remain and all others keep their relative order |
| `ListenerList.RemoveAllAbsent` | nep/timeline/EventSystem/EventManager.java:31-35 | removing listeners that are not registered, in particular from an empty registry, changes nothing |
| `PrioritySort.AnnotatedOnly` | nep/timeline/EventSystem/EventManager.java:115 | the kept methods are exactly the annotated ones of the input; they are all annotated |
| `PrioritySort.AnnotatedOnlyCounts` | nep/timeline/EventSystem/EventManager.java:115 | every annotated method is kept as many times as it is declared, and every unannotated one is dropped |
| `PrioritySort.SortByLevel` | nep/timeline/EventSystem/EventManager.java:89-109 | the result is ordered by ascending level and is a permutation of the input |
| `PrioritySort.StableByLevel` | nep/timeline/EventSystem/EventManager.java:89-109 | stability: for every level, the handlers of that level leave the sort in the order they entered |
| `PrioritySort.Compare` | nep/timeline/EventSystem/EventManager.java:89-109 | the comparator as written: between two annotated methods it is negative iff the first level is lower, positive iff it is higher, and 0 iff the levels are equal; it is 0 whenever either is unannotated |
| `PrioritySort.SortByLevelOrderedByCompare` | nep/timeline/EventSystem/EventManager.java:89-109 | when every method is annotated, no pair of `SortByLevel`'s result is out of order under the comparator as written, so the model's sort agrees with what `List.sort` with that comparator promises |
| `PrioritySort.ComparatorLeavesLevelsUnsorted` | nep/timeline/EventSystem/EventManager.java:105-108 | for declared order [level 1, unannotated, level 0], every neighbouring pair compares as 0, so the sort sees one ascending run, yet the annotated methods are out of level order; `SortByLevel` puts level 0 first |
| `DispatchPlan.HandlerOrder` | nep/timeline/EventSystem/EventManager.java:88-115 | the methods a listener's dispatch reaches are all annotated |
| `DispatchPlan.Plan` | nep/timeline/EventSystem/EventManager.java:87-115 | every planned step belongs to a registered listener and an annotated method |
| `DispatchPlan.FirstTooMany` | nep/timeline/EventSystem/EventManager.java:117-118 | no step before the returned position has more than one parameter; the step at that position, if any, does |
| `DispatchPlan.PlanListenerOrder` | nep/timeline/EventSystem/EventManager.java:87 | on a duplicate-free registry, steps follow registry order of their listeners |
| `DispatchPlan.PlanLevelOrder` | nep/timeline/EventSystem/EventManager.java:89-109 | on a duplicate-free registry, steps of the same listener come in ascending priority level |
| `DispatchPlan.PlanPerListener` | nep/timeline/EventSystem/EventManager.java:87-125 | on a duplicate-free registry, a registered listener's steps, taken in plan order, are exactly its sorted annotated methods, visited once; an unregistered listener has none |
| `DispatchPlan.PlanStablePerListener` | nep/timeline/EventSystem/EventManager.java:89-115 | on a duplicate-free registry, the methods a registered listener's dispatch reaches are a permutation of its annotated methods, and at each level they keep declaration order |
| `DispatchPlan.Dispatch` | nep/timeline/EventSystem/EventManager.java:85-129 | sequential `call(event, false)` on a registry snapshot: the trace has exactly `FirstTooMany(plan)` entries, each the `callEvent` entry of the plan step at its position, none with more than one parameter; it ends `Returned` with the given event iff no planned method has too many parameters, and otherwise `Threw` with the plan's method right after the trace, which has more than one parameter |
| `DispatchPlan.DispatchFollowsPlan` | nep/timeline/EventSystem/EventManager.java:111-128 | `Dispatch`'s contract in one statement, plus one fact: every method the trace records is annotated and has at most one parameter. The trace is the plan's `callEvent` entries up to the first method with more than one parameter; dispatch returns the same event iff no planned method has too many parameters, and otherwise throws for the method right after the last entry |
| `DispatchPlan.TraceOrder` | nep/timeline/EventSystem/EventManager.java:87-125 | on a duplicate-free registry, trace entries follow listener registration order, and within a listener ascending level |
| `DispatchPlan.UnmarkedListenerSilent` | nep/timeline/EventSystem/EventManager.java:115 | a listener whose class has no annotated method never appears in the trace |
| `DispatchPlan.DispatchEmpty` | nep/timeline/EventSystem/EventManager.java:87-128 | with no listener registered, dispatch makes no call and returns the event |
| `DispatchPlan.DispatchThrowsAt` | nep/timeline/EventSystem/EventManager.java:117-118 | when listener i's method j is the first with too many parameters, the dispatch's trace is exactly the entries before it and it throws for that method |
| `DispatchPlan.DispatchCompletes` | nep/timeline/EventSystem/EventManager.java:128 | when no planned method has too many parameters, the trace covers the whole plan and the given event is returned |
| `EventSystem.EventManager.constructor` | nep/timeline/EventSystem/EventManager.java:17 | the registry starts empty and duplicate-free |
| `EventSystem.EventManager.Reset` | nep/timeline/EventSystem/EventManager.java:19-22 | the registry is empty afterwards, and every dispatch that follows has an empty trace and returns its event |
| `EventSystem.EventManager.AddListener` | nep/timeline/EventSystem/EventManager.java:24-29 | the loop leaves the registry equal to `AddAll` of the old one and keeps it duplicate-free |
| `EventSystem.EventManager.RemoveListener` | nep/timeline/EventSystem/EventManager.java:31-35 | the registry afterwards is the old one when it was empty, and `RemoveAll` of it otherwise; this equals the filter `Without` of the old registry and stays duplicate-free |
| `EventSystem.EventManager.Call` | nep/timeline/EventSystem/EventManager.java:80-129 | `call(event)` (= `call(event, false)`): the loop's trace and ending equal `Dispatch` of the registry; when it returns, it returns the given event |
| `EventSystem.EventManager.CallListener` | nep/timeline/EventSystem/EventManager.java:111-125 | the inner per-listener loop extends the trace by this listener's calls and keeps the no-abort invariant, or stops with exactly the dispatch's trace and the throwing method |

## Findings

| source | as written | input that shows it | evidently intended | confidence | as-written member | corrected member |
|---|---|---|---|---|---|---|
| nep/timeline/EventSystem/EventManager.java:105-108 | the sort comparator returns 0 when either method lacks `@EventListener`, so with unannotated methods in the list it is not transitive | declared methods in order: `late` (level 1), `plain` (no annotation), `early` (level 0); each neighbouring pair compares as 0, so `List.sort` takes the list as one sorted run and leaves it, and `late` is invoked before `early` | annotated handlers run in ascending level whatever unannotated methods sit between them | high for the comparator property, medium for the sort result (depends on the library sort's run detection); not executed | `PrioritySort.ComparatorLeavesLevelsUnsorted` | `PrioritySort.SortByLevel` |

## Left out

- The `multi_thread` branch (line 120-121) and `threads/MethodInvoke.java`: each handler runs on a new, never-joined thread. This is concurrency only, so `Call` models `multi_thread == false`.
- Reflection: `getDeclaredMethods`, `isAnnotationPresent`/`getDeclaredAnnotation`, `setAccessible` and `MethodHandles.lookup().unreflect` (lines 16, 41-42, 88, 90-103, 112-115). The declared methods of each listener's class are the input `methodsOf`, in the order reflection returns them. An `IllegalAccessException` from `unreflect` (swallowed at line 70-73) is not modelled. Static methods, whose handle takes no receiver, are not distinguished.
- Handler bodies: an `Invoke*` outcome records that the call was made. What the handler does to the event, and any exception it throws (printed at line 74-76), are not modelled. `Call` returns the event value it was given.
- `printStackTrace` (line 76): only the `ReportedError` outcome is kept, with the reason that was thrown.
- Thread safety of `CopyOnWriteArrayList` (line 17): `Call` iterates over the value of `listeners` at entry, which plays the role of the iterator snapshot. Concurrent mutation is out of scope.
- Handler bodies' effects on the registry: a handler invoked during `call` may itself call `addListener`, `removeListener` or `reset` on the same thread. The running dispatch goes on over its snapshot, but the registry that `call` leaves behind has then changed. The model does not capture this, and it is the only reason `EventSystem.EventManager.Call` leaves `listeners` unchanged (it has no `modifies` clause).
- `EventPriority`: only `getLevel()` as an unbounded `int`. The `int` overflow possible in `priority1.getLevel() - priority2.getLevel()` (line 106) is not modelled.
- PrioritySort.SortByLevel: the library sort (`List.sort`) is replaced by a stable sort of the annotated methods alone. Its behaviour on the non-transitive comparator of lines 89-109 is not modelled beyond the run in `ComparatorLeavesLevelsUnsorted`. That includes the `IllegalArgumentException` it may raise for an inconsistent comparator on long lists.
- `null` listeners, events reporting a `null` kind, and `call` on a `null` event are not modelled.
- The registry is a field of an `EventManager` object instead of a static list. Every operation acts on that one object.
