/** The event bus itself (EventManager.java): the listener registry and
    sequential dispatch. The Java class keeps its registry in a static
    `CopyOnWriteArrayList`; here it is the `listeners` field of an
    `EventManager` object, and every operation is a method on it.

    The declared methods of each listener's class (what reflection finds)
    are the parameter `methodsOf`. */
module EventSystem {
  import opened EventTypes
  import opened ListenerList
  import opened HandlerMatch
  import opened DispatchPlan

  class EventManager {
    /** The registered listeners, in registration order. */
    var listeners: seq<ListenerId>

    /** No listener is registered twice. */
    ghost predicate Valid()
      reads this
    {
      NoDuplicates(listeners)
    }

    constructor ()
      ensures Valid() && listeners == []
    {
      listeners := [];
    }

    /** `reset()`: clears the registry; a dispatch that follows makes no
        call and returns its event. */
    method Reset()
      modifies this
      ensures Valid() && listeners == []
      ensures forall methodsOf: ListenerId -> seq<Handler>, e: Event ::
        Dispatch(listeners, methodsOf, e) == Dispatched([], Returned(e))
    {
      listeners := [];
    }

    /** `addListener(projects...)`: appends, in argument order, each listener
        not already registered. */
    method AddListener(projects: seq<ListenerId>)
      requires Valid()
      modifies this
      ensures Valid()
      ensures listeners == AddAll(old(listeners), projects)
    {
      var k := 0;
      while k < |projects|
        invariant 0 <= k <= |projects|
        invariant listeners == AddAll(old(listeners), projects[..k])
        invariant Valid()
      {
        var o := projects[k];
        if o !in listeners {
          listeners := listeners + [o];
        }
        assert projects[..k + 1][..k] == projects[..k];
        k := k + 1;
      }
      assert projects[..k] == projects;
    }

    /** `removeListener(projects...)`: when the registry is not empty, removes
        each argument in turn with `CopyOnWriteArrayList.remove`; since the
        registry has no duplicates, exactly the given listeners go and the
        others keep their order. */
    method RemoveListener(projects: seq<ListenerId>)
      requires Valid()
      modifies this
      ensures Valid()
      ensures listeners == if old(listeners) == [] then [] else RemoveAll(old(listeners), projects)
      ensures listeners == Without(old(listeners), projects)
    {
      if listeners == [] {
        return;
      }
      var k := 0;
      while k < |projects|
        invariant 0 <= k <= |projects|
        invariant listeners == RemoveAll(old(listeners), projects[..k])
        invariant Valid()
      {
        RemoveFirstKeepsNoDuplicates(listeners, projects[k]);
        RemoveAllStep(old(listeners), projects, k);
        listeners := RemoveFirst(listeners, projects[k]);
        k := k + 1;
      }
      assert projects[..k] == projects;
      RemoveAllFilters(old(listeners), projects);
    }

    /** `call(event)`, which is `call(event, false)`: walks a snapshot of the
        registry, and for each listener its annotated methods in priority
        order, deciding each with `callEvent`; a method with more than one
        parameter makes it throw at once. The calls made and the way it ends
        are those of `Dispatch` on the registry. */
    method Call(event: Event, methodsOf: ListenerId -> seq<Handler>) returns (trace: seq<Entry>, status: Status)
      ensures Dispatched(trace, status) == Dispatch(listeners, methodsOf, event)
      ensures status.Returned? ==> status.event == event
    {
      var snapshot := listeners;
      trace := [];
      var i := 0;
      while i < |snapshot|
        invariant 0 <= i <= |snapshot|
        invariant trace == Entries(Plan(snapshot[..i], methodsOf), event)
        invariant NoTooMany(Plan(snapshot[..i], methodsOf))
      {
        trace, status := CallListener(event, snapshot, methodsOf, i, trace);
        if status.Threw? {
          return;
        }
        i := i + 1;
      }
      assert snapshot[..i] == snapshot;
      DispatchCompletes(snapshot, methodsOf, event);
      status := Returned(event);
    }

    /** The inner `methods.forEach` of `call` for the `i`-th listener of the
        snapshot `ls`: it extends the trace of the listeners before it with
        this listener's calls, or throws for the first method with too many
        parameters, which ends the whole dispatch. */
    static method CallListener(event: Event, ls: seq<ListenerId>, methodsOf: ListenerId -> seq<Handler>,
                               i: nat, trace0: seq<Entry>)
        returns (trace: seq<Entry>, status: Status)
      requires i < |ls|
      requires trace0 == Entries(Plan(ls[..i], methodsOf), event)
      requires NoTooMany(Plan(ls[..i], methodsOf))
      ensures status.Returned? ==>
        && status == Returned(event)
        && trace == Entries(Plan(ls[..i + 1], methodsOf), event)
        && NoTooMany(Plan(ls[..i + 1], methodsOf))
      ensures status.Threw? ==> Dispatch(ls, methodsOf, event) == Dispatched(trace, status)
    {
      var l := ls[i];
      var hs := HandlerOrder(methodsOf(l));
      trace := trace0;
      var j := 0;
      assert Through(ls, methodsOf, i, 0) == Plan(ls[..i], methodsOf);
      while j < |hs|
        invariant 0 <= j <= |hs|
        invariant trace == Entries(Through(ls, methodsOf, i, j), event)
        invariant NoTooMany(Through(ls, methodsOf, i, j))
      {
        var h := hs[j];
        if |h.params| > 1 {
          DispatchThrowsAt(ls, methodsOf, event, i, j);
          return trace, Threw(h);
        }
        ThroughNext(ls, methodsOf, i, j);
        EntriesAppend(Through(ls, methodsOf, i, j), Step(l, h), event);
        trace := trace + [Entry(l, h, CallEvent(event, h))];
        j := j + 1;
      }
      ThroughEnd(ls, methodsOf, i);
      status := Returned(event);
    }
  }
}
