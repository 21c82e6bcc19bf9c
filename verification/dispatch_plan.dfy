/** What one sequential `call(event, false)` does (EventManager.java,
    lines 85-129), as a function of the registry snapshot, the declared
    methods of each listener's class and the event.

    The calls `call` makes are planned as a sequence of steps: listener by
    listener in registry order, and within a listener the annotated methods
    in stable priority order. `call` runs the plan until the first step whose
    method has more than one parameter, where it throws; the trace is the
    entries of the steps before that one. */
module DispatchPlan {
  import opened EventTypes
  import opened ListenerList
  import opened PrioritySort
  import opened HandlerMatch

  /** One planned `callEvent(event, listener, method)`. */
  datatype Step = Step(listener: ListenerId, handler: Handler)

  /** How `call` ends: it returns the event it was given, or throws the
      "Too many method types!" `EventException` for the culprit method. */
  datatype Status = Returned(event: Event) | Threw(culprit: Handler)

  datatype Dispatched = Dispatched(trace: seq<Entry>, status: Status)

  /** The methods of one listener in the order `call` reaches them. */
  function HandlerOrder(ms: seq<Handler>): (r: seq<Handler>)
    ensures AllAnnotated(r)
  {
    SortByLevel(AnnotatedOnly(ms))
  }

  /** The steps of listener `l`, whose class declares the methods `ms`. */
  function ListenerSteps(l: ListenerId, ms: seq<Handler>): (r: seq<Step>)
    ensures |r| == |HandlerOrder(ms)|
    ensures forall i :: 0 <= i < |r| ==> r[i] == Step(l, HandlerOrder(ms)[i])
  {
    StepsFor(l, HandlerOrder(ms))
  }

  function StepsFor(l: ListenerId, hs: seq<Handler>): (r: seq<Step>)
    ensures |r| == |hs|
    ensures forall i :: 0 <= i < |r| ==> r[i] == Step(l, hs[i])
  {
    if hs == [] then [] else [Step(l, hs[0])] + StepsFor(l, hs[1..])
  }

  /** The steps for the listeners `ls`, in registry order. Every step is an
      annotated method declared by its listener's class. */
  function Plan(ls: seq<ListenerId>, methodsOf: ListenerId -> seq<Handler>): (r: seq<Step>)
    ensures forall i :: 0 <= i < |r| ==> r[i].listener in ls && Annotated(r[i].handler)
  {
    if ls == [] then []
    else
      var l := ls[|ls| - 1];
      Plan(ls[..|ls| - 1], methodsOf) + ListenerSteps(l, methodsOf(l))
  }

  /** Position of the first step whose method has too many parameters, or
      the length of the plan when there is none. */
  function FirstTooMany(plan: seq<Step>): (k: nat)
    ensures k <= |plan|
    ensures forall i :: 0 <= i < k ==> !TooManyParams(plan[i].handler)
    ensures k < |plan| ==> TooManyParams(plan[k].handler)
  {
    if plan == [] then 0
    else if TooManyParams(plan[0].handler) then 0
    else 1 + FirstTooMany(plan[1..])
  }

  function EntryOf(s: Step, e: Event): Entry {
    Entry(s.listener, s.handler, CallEvent(e, s.handler))
  }

  function Entries(steps: seq<Step>, e: Event): (r: seq<Entry>)
  {
    seq(|steps|, i requires 0 <= i < |steps| => EntryOf(steps[i], e))
  }

  /** Sequential dispatch of `e` to the registry snapshot `ls`. */
  function Dispatch(ls: seq<ListenerId>, methodsOf: ListenerId -> seq<Handler>, e: Event): (d: Dispatched)
    ensures |d.trace| == FirstTooMany(Plan(ls, methodsOf))
    ensures forall i :: 0 <= i < |d.trace| ==>
      d.trace[i] == EntryOf(Plan(ls, methodsOf)[i], e) && !TooManyParams(d.trace[i].handler)
    ensures d.status == Returned(e) <==> NoTooMany(Plan(ls, methodsOf))
    ensures !NoTooMany(Plan(ls, methodsOf)) ==> d.status.Threw?
    ensures d.status.Threw? ==>
      |d.trace| < |Plan(ls, methodsOf)| && d.status.culprit == Plan(ls, methodsOf)[|d.trace|].handler
    ensures d.status.Threw? ==> TooManyParams(d.status.culprit)
  {
    var plan := Plan(ls, methodsOf);
    var k := FirstTooMany(plan);
    assert k < |plan| ==> !NoTooMany(plan) by {
      if k < |plan| { assert TooManyParams(plan[k].handler); }
    }
    Dispatched(Entries(plan[..k], e), if k < |plan| then Threw(plan[k].handler) else Returned(e))
  }

  // ---------------------------------------------------------------------
  // Lemmas the dispatch loop needs

  lemma EntriesAppend(steps: seq<Step>, s: Step, e: Event)
    ensures Entries(steps + [s], e) == Entries(steps, e) + [EntryOf(s, e)]
  {
  }

  /** The plan for a prefix of the registry is a prefix of the whole plan. */
  lemma {:induction false} PlanPrefix(ls: seq<ListenerId>, methodsOf: ListenerId -> seq<Handler>, n: nat)
    requires n <= |ls|
    ensures var p := Plan(ls[..n], methodsOf);
      |p| <= |Plan(ls, methodsOf)| && Plan(ls, methodsOf)[..|p|] == p
  {
    if n < |ls| {
      var ls' := ls[..|ls| - 1];
      assert ls'[..n] == ls[..n];
      PlanPrefix(ls', methodsOf, n);
    } else {
      assert ls[..n] == ls;
    }
  }

  predicate NoTooMany(steps: seq<Step>) {
    forall i :: 0 <= i < |steps| ==> !TooManyParams(steps[i].handler)
  }

  /** The steps before listener `i`'s method `j`. */
  function Through(ls: seq<ListenerId>, methodsOf: ListenerId -> seq<Handler>, i: nat, j: nat): seq<Step>
    requires i < |ls| && j <= |HandlerOrder(methodsOf(ls[i]))|
  {
    Plan(ls[..i], methodsOf) + ListenerSteps(ls[i], methodsOf(ls[i]))[..j]
  }

  /** The steps before listener `i`'s method `j`, and the step that follows
      them, are the start of the plan. */
  lemma ThroughInPlan(ls: seq<ListenerId>, methodsOf: ListenerId -> seq<Handler>, i: nat, j: nat)
    requires i < |ls| && j < |HandlerOrder(methodsOf(ls[i]))|
    ensures var done := Through(ls, methodsOf, i, j);
      var plan := Plan(ls, methodsOf);
      |done| < |plan| && plan[..|done|] == done &&
      plan[|done|] == Step(ls[i], HandlerOrder(methodsOf(ls[i]))[j])
  {
    var l := ls[i];
    var q := ListenerSteps(l, methodsOf(l));
    var p := Plan(ls[..i], methodsOf);
    var p1 := Plan(ls[..i + 1], methodsOf);
    assert ls[..i + 1][..i] == ls[..i] && ls[..i + 1][i] == l;
    assert p1 == p + q;
    PlanPrefix(ls, methodsOf, i + 1);
    var plan := Plan(ls, methodsOf);
    var done := p + q[..j];
    assert plan[..|done|] == p1[..|done|] == done;
    assert plan[|done|] == p1[|done|] == q[j];
  }

  lemma ThroughNext(ls: seq<ListenerId>, methodsOf: ListenerId -> seq<Handler>, i: nat, j: nat)
    requires i < |ls| && j < |HandlerOrder(methodsOf(ls[i]))|
    ensures Through(ls, methodsOf, i, j + 1) ==
      Through(ls, methodsOf, i, j) + [Step(ls[i], HandlerOrder(methodsOf(ls[i]))[j])]
  {
    var q := ListenerSteps(ls[i], methodsOf(ls[i]));
    PrefixNext(Plan(ls[..i], methodsOf), q, j);
  }

  lemma PrefixNext(p: seq<Step>, q: seq<Step>, j: nat)
    requires j < |q|
    ensures p + q[..j + 1] == (p + q[..j]) + [q[j]]
  {
    assert q[..j + 1] == q[..j] + [q[j]];
  }

  lemma ThroughEnd(ls: seq<ListenerId>, methodsOf: ListenerId -> seq<Handler>, i: nat)
    requires i < |ls|
    ensures Through(ls, methodsOf, i, |HandlerOrder(methodsOf(ls[i]))|) == Plan(ls[..i + 1], methodsOf)
  {
    var q := ListenerSteps(ls[i], methodsOf(ls[i]));
    assert q[..|q|] == q;
    assert ls[..i + 1][..i] == ls[..i] && ls[..i + 1][i] == ls[i];
  }

  /** Dispatch stops at listener `i`'s method `j` when that is the first
      method with too many parameters. */
  lemma DispatchThrowsAt(ls: seq<ListenerId>, methodsOf: ListenerId -> seq<Handler>, e: Event, i: nat, j: nat)
    requires i < |ls| && j < |HandlerOrder(methodsOf(ls[i]))|
    requires NoTooMany(Through(ls, methodsOf, i, j))
    requires TooManyParams(HandlerOrder(methodsOf(ls[i]))[j])
    ensures Dispatch(ls, methodsOf, e) ==
      Dispatched(Entries(Through(ls, methodsOf, i, j), e), Threw(HandlerOrder(methodsOf(ls[i]))[j]))
  {
    var done := Through(ls, methodsOf, i, j);
    var plan := Plan(ls, methodsOf);
    ThroughInPlan(ls, methodsOf, i, j);
    forall q | 0 <= q < |done|
      ensures !TooManyParams(plan[q].handler)
    {
      assert plan[q] == plan[..|done|][q] == done[q];
    }
    FirstTooManyAt(plan, |done|);
    assert plan[..FirstTooMany(plan)] == done;
  }

  lemma DispatchCompletes(ls: seq<ListenerId>, methodsOf: ListenerId -> seq<Handler>, e: Event)
    requires NoTooMany(Plan(ls, methodsOf))
    ensures Dispatch(ls, methodsOf, e) == Dispatched(Entries(Plan(ls, methodsOf), e), Returned(e))
  {
    var plan := Plan(ls, methodsOf);
    FirstTooManyAt(plan, |plan|);
    assert plan[..|plan|] == plan;
  }

  lemma FirstTooManyAt(plan: seq<Step>, n: nat)
    requires n <= |plan|
    requires forall i :: 0 <= i < n ==> !TooManyParams(plan[i].handler)
    requires n < |plan| ==> TooManyParams(plan[n].handler)
    ensures FirstTooMany(plan) == n
  {
  }

  // ---------------------------------------------------------------------
  // Properties of sequential dispatch

  /** The listeners of the steps are registered, and come in registry
      order. */
  predicate InRegistryOrder(steps: seq<Step>, ls: seq<ListenerId>) {
    && (forall i :: 0 <= i < |steps| ==> steps[i].listener in ls)
    && (forall i, j :: 0 <= i < j < |steps| && steps[i].listener in ls && steps[j].listener in ls ==>
          IndexOf(ls, steps[i].listener) <= IndexOf(ls, steps[j].listener))
  }

  /** The steps of one listener come in ascending priority level. */
  predicate LevelsAscendPerListener(steps: seq<Step>) {
    forall i, j ::
      (0 <= i < j < |steps| && steps[i].listener == steps[j].listener &&
       Annotated(steps[i].handler) && Annotated(steps[j].handler)) ==>
        Level(steps[i].handler) <= Level(steps[j].handler)
  }

  /** In the plan, listeners come in registry order. */
  lemma {:induction false} PlanListenerOrder(ls: seq<ListenerId>, methodsOf: ListenerId -> seq<Handler>)
    requires NoDuplicates(ls)
    ensures InRegistryOrder(Plan(ls, methodsOf), ls)
  {
    if ls != [] {
      var ls', l := ls[..|ls| - 1], ls[|ls| - 1];
      assert ls == ls' + [l];
      var p := Plan(ls', methodsOf);
      var q := ListenerSteps(l, methodsOf(l));
      var plan := Plan(ls, methodsOf);
      assert plan == p + q;
      PlanListenerOrder(ls', methodsOf);
      assert IndexOf(ls, l) == |ls'| by {
        assert ls[|ls'|] == l && ls[..|ls'|] == ls';
      }
      forall i, j | 0 <= i < j < |plan|
        ensures IndexOf(ls, plan[i].listener) <= IndexOf(ls, plan[j].listener)
      {
        if j < |p| {
          var a, b := p[i].listener, p[j].listener;
          assert plan[i].listener == a && plan[j].listener == b;
          assert IndexOf(ls', a) <= IndexOf(ls', b);
          IndexOfPrefix(ls', [l], a);
          IndexOfPrefix(ls', [l], b);
        } else if i < |p| {
          var a := p[i].listener;
          assert plan[i].listener == a && plan[j].listener == l;
          IndexOfPrefix(ls', [l], a);
        } else {
          assert plan[i].listener == l && plan[j].listener == l;
        }
      }
    }
  }

  /** In the plan, the methods of one listener come in ascending priority
      level. */
  lemma {:induction false} PlanLevelOrder(ls: seq<ListenerId>, methodsOf: ListenerId -> seq<Handler>)
    requires NoDuplicates(ls)
    ensures LevelsAscendPerListener(Plan(ls, methodsOf))
  {
    if ls != [] {
      var ls', l := ls[..|ls| - 1], ls[|ls| - 1];
      assert ls == ls' + [l];
      var p := Plan(ls', methodsOf);
      var hs := HandlerOrder(methodsOf(l));
      var q := ListenerSteps(l, methodsOf(l));
      var plan := Plan(ls, methodsOf);
      assert plan == p + q;
      PlanLevelOrder(ls', methodsOf);
      assert l !in ls';
      forall i, j | 0 <= i < j < |plan| && plan[i].listener == plan[j].listener
        ensures Level(plan[i].handler) <= Level(plan[j].handler)
      {
        if j < |p| {
          assert plan[i] == p[i] && plan[j] == p[j];
        } else if i < |p| {
          assert false;
        } else {
          assert plan[i] == q[i - |p|] && plan[j] == q[j - |p|];
          assert q[i - |p|].handler == hs[i - |p|] && q[j - |p|].handler == hs[j - |p|];
        }
      }
    }
  }

  /** The steps of one listener, in plan order. */
  function StepsOf(plan: seq<Step>, l: ListenerId): seq<Step> {
    if plan == [] then []
    else StepsOf(plan[..|plan| - 1], l) + (if plan[|plan| - 1].listener == l then [plan[|plan| - 1]] else [])
  }

  lemma {:induction false} StepsOfAppend(a: seq<Step>, b: seq<Step>, l: ListenerId)
    ensures StepsOf(a + b, l) == StepsOf(a, l) + StepsOf(b, l)
  {
    if b != [] {
      var b' := b[..|b| - 1];
      assert (a + b)[..|a + b| - 1] == a + b';
      StepsOfAppend(a, b', l);
    } else {
      assert a + b == a;
    }
  }

  lemma {:induction false} StepsOfOne(l: ListenerId, ms: seq<Handler>, l': ListenerId)
    ensures StepsOf(ListenerSteps(l, ms), l') == if l == l' then ListenerSteps(l, ms) else []
  {
    var q := ListenerSteps(l, ms);
    StepsOfUniform(q, l, l');
  }

  lemma {:induction false} StepsOfUniform(q: seq<Step>, l: ListenerId, l': ListenerId)
    requires forall i :: 0 <= i < |q| ==> q[i].listener == l
    ensures StepsOf(q, l') == if l == l' then q else []
  {
    if q != [] {
      StepsOfUniform(q[..|q| - 1], l, l');
    }
  }

  /** Each registered listener's methods are reached exactly once per
      dispatch, all of them and in their `HandlerOrder`; a listener that is
      not registered is not reached. */
  lemma {:induction false} PlanPerListener(ls: seq<ListenerId>, methodsOf: ListenerId -> seq<Handler>, l: ListenerId)
    requires NoDuplicates(ls)
    ensures StepsOf(Plan(ls, methodsOf), l) ==
      if l in ls then ListenerSteps(l, methodsOf(l)) else []
  {
    if ls != [] {
      var ls', last := ls[..|ls| - 1], ls[|ls| - 1];
      assert ls == ls' + [last];
      PlanPerListener(ls', methodsOf, l);
      StepsOfAppend(Plan(ls', methodsOf), ListenerSteps(last, methodsOf(last)), l);
      StepsOfOne(last, methodsOf(last), l);
      assert last !in ls';
    }
  }

  function HandlersOf(steps: seq<Step>): (r: seq<Handler>)
    ensures |r| == |steps|
  {
    if steps == [] then [] else [steps[0].handler] + HandlersOf(steps[1..])
  }

  lemma {:induction false} HandlersOfSteps(l: ListenerId, hs: seq<Handler>)
    ensures HandlersOf(StepsFor(l, hs)) == hs
  {
    if hs != [] {
      var r := StepsFor(l, hs);
      assert r[1..] == StepsFor(l, hs[1..]);
      HandlersOfSteps(l, hs[1..]);
    }
  }

  /** Within one registered listener, the methods the dispatch reaches are
      its annotated methods, and those of equal priority level are reached
      in the order the class declares them. */
  lemma PlanStablePerListener(ls: seq<ListenerId>, methodsOf: ListenerId -> seq<Handler>, l: ListenerId, lv: int)
    requires NoDuplicates(ls) && l in ls
    ensures var hs := HandlersOf(StepsOf(Plan(ls, methodsOf), l));
      && AllAnnotated(hs)
      && multiset(hs) == multiset(AnnotatedOnly(methodsOf(l)))
      && AtLevel(hs, lv) == AtLevel(AnnotatedOnly(methodsOf(l)), lv)
  {
    PlanPerListener(ls, methodsOf, l);
    HandlersOfSteps(l, HandlerOrder(methodsOf(l)));
    StableByLevel(AnnotatedOnly(methodsOf(l)), lv);
  }

  /** The contract of `Dispatch` gathered in one statement, with one more
      fact: every method the trace records is annotated and has at most one
      parameter. The trace is the plan's entries up to the first method with
      too many parameters; when there is one, `call` throws for it after
      every earlier entry and before any later one, and otherwise returns
      the event it was given. */
  lemma DispatchFollowsPlan(ls: seq<ListenerId>, methodsOf: ListenerId -> seq<Handler>, e: Event)
    ensures var plan := Plan(ls, methodsOf);
      var d := Dispatch(ls, methodsOf, e);
      && |d.trace| <= |plan|
      && (forall i :: 0 <= i < |d.trace| ==>
            d.trace[i] == Entry(plan[i].listener, plan[i].handler, CallEvent(e, plan[i].handler)))
      && (forall i :: 0 <= i < |d.trace| ==>
            Annotated(d.trace[i].handler) && |d.trace[i].handler.params| <= 1)
      && (d.status == Returned(e) <==> forall i :: 0 <= i < |plan| ==> !TooManyParams(plan[i].handler))
      && (!NoTooMany(plan) ==> d.status.Threw?)
      && (d.status.Threw? ==>
            |d.trace| < |plan| && plan[|d.trace|].handler == d.status.culprit &&
            TooManyParams(d.status.culprit))
  {
  }

  /** The trace is ordered like the plan: listeners in registry order, and
      within a listener by ascending level. */
  lemma TraceOrder(ls: seq<ListenerId>, methodsOf: ListenerId -> seq<Handler>, e: Event)
    requires NoDuplicates(ls)
    ensures var t := Dispatch(ls, methodsOf, e).trace;
      forall i, j :: 0 <= i < j < |t| ==>
        && t[i].listener in ls && t[j].listener in ls
        && IndexOf(ls, t[i].listener) <= IndexOf(ls, t[j].listener)
        && (t[i].listener == t[j].listener ==> Level(t[i].handler) <= Level(t[j].handler))
  {
    PlanListenerOrder(ls, methodsOf);
    PlanLevelOrder(ls, methodsOf);
    DispatchFollowsPlan(ls, methodsOf, e);
  }

  lemma {:induction false} PlanSkipsSilent(ls: seq<ListenerId>, methodsOf: ListenerId -> seq<Handler>, l: ListenerId)
    requires HandlerOrder(methodsOf(l)) == []
    ensures forall st :: st in Plan(ls, methodsOf) ==> st.listener != l
  {
    if ls != [] {
      var ls', last := ls[..|ls| - 1], ls[|ls| - 1];
      PlanSkipsSilent(ls', methodsOf, l);
      var q := ListenerSteps(last, methodsOf(last));
      assert Plan(ls, methodsOf) == Plan(ls', methodsOf) + q;
      assert forall st :: st in q ==> st.listener == last;
      assert last == l ==> q == [];
    }
  }

  /** A listener whose class has no annotated method never appears in the
      trace. */
  lemma UnmarkedListenerSilent(ls: seq<ListenerId>, methodsOf: ListenerId -> seq<Handler>, e: Event, l: ListenerId)
    requires forall h :: h in methodsOf(l) ==> !Annotated(h)
    ensures forall en :: en in Dispatch(ls, methodsOf, e).trace ==> en.listener != l
  {
    NoneAnnotated(methodsOf(l));
    PlanSkipsSilent(ls, methodsOf, l);
    var plan := Plan(ls, methodsOf);
    var t := Dispatch(ls, methodsOf, e).trace;
    forall en | en in t
      ensures en.listener != l
    {
      var i :| 0 <= i < |t| && t[i] == en;
      assert en.listener == plan[i].listener;
      assert plan[i] in plan;
    }
  }

  /** With no listener registered, a dispatch makes no call and returns the
      event. */
  lemma DispatchEmpty(methodsOf: ListenerId -> seq<Handler>, e: Event)
    ensures Dispatch([], methodsOf, e) == Dispatched([], Returned(e))
  {
  }
}
