/** The decision `callEvent` takes for one handler and one event
    (EventManager.java, lines 37-78). Every exception it raises is caught in
    the same method, so the decision is a total function: there is no path
    on which a failure reaches the caller. */
module HandlerMatch {
  import opened EventTypes

  /** True when the annotation's `event()` selects events of `e`'s kind
      explicitly: the wildcard ALL, or the same kind, but never NONE. */
  predicate SelectsKind(events: EventList, e: Event) {
    events != NONE && (events == ALL || events == e.kind)
  }

  /** `callEvent(event, listener, method)`: which call, if any, is made. The
      contract is the decision table, one row per outcome, each an
      if-and-only-if. */
  function CallEvent(e: Event, h: Handler): (r: Outcome)
    // without the annotation, `.event()` throws NullPointerException, printed
    ensures r == ReportedError(MissingAnnotation) <==> !Annotated(h)
    // a single parameter of exactly the event's class is invoked with the event,
    // whether the kind was selected explicitly or left as NONE
    ensures r == InvokeWithEvent <==>
      Annotated(h) && |h.params| == 1 && h.params[0] == e.runtimeClass &&
      (h.annotation.event == NONE || SelectsKind(h.annotation.event, e))
    // no parameter: invoked without argument exactly when the kind is selected
    ensures r == InvokeNoArg <==>
      Annotated(h) && |h.params| == 0 && SelectsKind(h.annotation.event, e)
    // a selected kind with a parameter of another class is an error, never skipped
    ensures r == ReportedError(TypeMismatch) <==>
      Annotated(h) && |h.params| == 1 && h.params[0] != e.runtimeClass &&
      SelectsKind(h.annotation.event, e)
    ensures r == ReportedError(ArityMismatch) <==>
      Annotated(h) && |h.params| >= 2 && SelectsKind(h.annotation.event, e)
    // NONE on both sides without a single parameter is "Incorrect usage"
    ensures r == ReportedError(IncorrectUsage) <==>
      Annotated(h) && h.annotation.event == NONE && e.kind == NONE && |h.params| != 1
    // everything else is skipped silently
    ensures r == Skip <==>
      Annotated(h) &&
      ((h.annotation.event == NONE && |h.params| == 1 && h.params[0] != e.runtimeClass) ||
       (h.annotation.event == NONE && |h.params| != 1 && e.kind != NONE) ||
       (h.annotation.event != NONE && h.annotation.event != ALL && h.annotation.event != e.kind))
  {
    if !Annotated(h) then
      ReportedError(MissingAnnotation)
    else
      var events := h.annotation.event;
      if events != NONE && (events == e.kind || events == ALL) then
        if |h.params| == 1 then
          if h.params[0] != e.runtimeClass then ReportedError(TypeMismatch) else InvokeWithEvent
        else if |h.params| == 0 then
          InvokeNoArg
        else
          ReportedError(ArityMismatch)
      else if events == NONE && |h.params| == 1 then
        if h.params[0] == e.runtimeClass then InvokeWithEvent else Skip
      else if events == e.kind then
        ReportedError(IncorrectUsage)
      else
        Skip
  }

  /** A handler is only ever invoked when it was declared for this event: an
      invocation with the event means its one parameter is the event's exact
      class (a subclass does not do), an invocation without argument means
      its kind was selected. */
  lemma InvocationNeedsMatch(e: Event, h: Handler)
    ensures CallEvent(e, h) == InvokeWithEvent ==> h.params == [e.runtimeClass]
    ensures CallEvent(e, h) == InvokeNoArg ==>
      h.params == [] && h.annotation.Present? &&
      (h.annotation.event == ALL || h.annotation.event == e.kind)
  {
    if CallEvent(e, h) == InvokeWithEvent {
      assert h.params == [h.params[0]];
    }
  }

  /** An ALL handler with one parameter of class T is invoked exactly when
      the event's class is T, whatever kind the event reports; otherwise the
      mismatch is reported. */
  lemma WildcardIgnoresKind(e1: Event, e2: Event, h: Handler)
    requires h.annotation.Present? && h.annotation.event == ALL && |h.params| == 1
    requires e1.runtimeClass == e2.runtimeClass
    ensures CallEvent(e1, h) == CallEvent(e2, h)
    ensures CallEvent(e1, h) in {InvokeWithEvent, ReportedError(TypeMismatch)}
  {
  }
}
