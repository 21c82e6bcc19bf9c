/** The values the listener registry passes through (EventManager.java,
    lines 17-35): `addListener` appends each argument that `contains` does
    not find, `removeListener` calls `CopyOnWriteArrayList.remove(Object)`,
    which deletes the first equal element, once per argument. The functions
    here are those steps on sequences; the class EventSystem.EventManager
    runs them as loops over its `listeners` field. */
module ListenerList {
  import opened EventTypes

  predicate NoDuplicates(s: seq<ListenerId>) {
    forall i, j :: 0 <= i < j < |s| ==> s[i] != s[j]
  }

  /** Position of the first occurrence of `x` in `s`. */
  function IndexOf(s: seq<ListenerId>, x: ListenerId): (k: nat)
    requires x in s
    ensures k < |s| && s[k] == x
    ensures forall i :: 0 <= i < k ==> s[i] != x
  {
    if s[0] == x then 0 else 1 + IndexOf(s[1..], x)
  }

  /** One pass of the `addListener` loop: `if (!contains(o)) add(o)`. */
  function AddOne(s: seq<ListenerId>, x: ListenerId): (r: seq<ListenerId>)
    ensures |s| <= |r| <= |s| + 1 && r[..|s|] == s
    ensures forall y :: y in r <==> y in s || y == x
    ensures NoDuplicates(s) ==> NoDuplicates(r)
  {
    if x in s then s else s + [x]
  }

  /** The registry after `addListener(ps...)`: the arguments are taken in
      order. The old entries stay where they were, the new ones are the
      arguments not present before, and no listener is ever there twice. */
  function AddAll(s: seq<ListenerId>, ps: seq<ListenerId>): (r: seq<ListenerId>)
    ensures |s| <= |r| && r[..|s|] == s
    ensures forall x :: x in r <==> x in s || x in ps
    ensures forall i :: |s| <= i < |r| ==> r[i] in ps && r[i] !in s
    ensures NoDuplicates(s) ==> NoDuplicates(r)
  {
    if ps == [] then s else AddOne(AddAll(s, ps[..|ps| - 1]), ps[|ps| - 1])
  }

  /** The entries of `r` from position `from` on are arguments of `ps`, in
      the order of their first occurrences there. */
  predicate InArgumentOrder(r: seq<ListenerId>, from: nat, ps: seq<ListenerId>) {
    && (forall i :: from <= i < |r| ==> r[i] in ps)
    && (forall i, j :: from <= i < j < |r| && r[i] in ps && r[j] in ps ==>
          IndexOf(ps, r[i]) < IndexOf(ps, r[j]))
  }

  /** New listeners appear at the end in the order of their first occurrence
      among the arguments. */
  lemma {:induction false} AddAllKeepsArgumentOrder(s: seq<ListenerId>, ps: seq<ListenerId>)
    ensures InArgumentOrder(AddAll(s, ps), |s|, ps)
  {
    if ps != [] {
      var ps', x := ps[..|ps| - 1], ps[|ps| - 1];
      assert ps == ps' + [x];
      AddAllKeepsArgumentOrder(s, ps');
      AddOneKeepsArgumentOrder(AddAll(s, ps'), |s|, ps', x);
    }
  }

  lemma AddOneKeepsArgumentOrder(r: seq<ListenerId>, from: nat, ps: seq<ListenerId>, x: ListenerId)
    requires from <= |r| && InArgumentOrder(r, from, ps)
    requires x !in r ==> x !in ps
    ensures InArgumentOrder(AddOne(r, x), from, ps + [x])
  {
    var r' := AddOne(r, x);
    forall i, j | from <= i < j < |r'|
      ensures IndexOf(ps + [x], r'[i]) < IndexOf(ps + [x], r'[j])
    {
      IndexOfPrefix(ps, [x], r[i]);
      if j < |r| {
        IndexOfPrefix(ps, [x], r[j]);
      } else {
        assert r'[j] == x && x !in ps;
        assert (ps + [x])[|ps|] == x && (ps + [x])[..|ps|] == ps;
      }
    }
  }

  lemma {:induction false} IndexOfPrefix(a: seq<ListenerId>, b: seq<ListenerId>, x: ListenerId)
    requires x in a
    ensures IndexOf(a + b, x) == IndexOf(a, x)
  {
    if a[0] != x {
      assert (a + b)[1..] == a[1..] + b;
      IndexOfPrefix(a[1..], b, x);
    }
  }

  /** Adding listeners that are all registered already changes nothing. */
  lemma {:induction false} AddAllPresent(s: seq<ListenerId>, ps: seq<ListenerId>)
    requires forall x :: x in ps ==> x in s
    ensures AddAll(s, ps) == s
  {
    if ps != [] {
      AddAllPresent(s, ps[..|ps| - 1]);
      assert ps[|ps| - 1] in ps;
    }
  }

  /** `addListener` is idempotent: repeating the same call leaves the
      registry as the first call left it. */
  lemma AddAllIdempotent(s: seq<ListenerId>, ps: seq<ListenerId>)
    ensures AddAll(AddAll(s, ps), ps) == AddAll(s, ps)
  {
    AddAllPresent(AddAll(s, ps), ps);
  }

  /** A listener that the registry holds once is held exactly once after any
      `addListener`, even when it is among the arguments, twice or more. */
  lemma AddAllOnce(s: seq<ListenerId>, ps: seq<ListenerId>, x: ListenerId)
    requires NoDuplicates(s) && (x in s || x in ps)
    ensures multiset(AddAll(s, ps))[x] == 1
  {
    var r := AddAll(s, ps);
    NoDuplicatesOnce(r, x);
  }

  lemma {:induction false} NoDuplicatesOnce(s: seq<ListenerId>, x: ListenerId)
    requires NoDuplicates(s) && x in s
    ensures multiset(s)[x] == 1
  {
    assert s == [s[0]] + s[1..];
    if s[0] == x {
      assert x !in s[1..];
    } else {
      NoDuplicatesOnce(s[1..], x);
    }
  }

  /** `CopyOnWriteArrayList.remove(Object)`: drops the first element equal to
      `x`, if any. */
  function RemoveFirst(s: seq<ListenerId>, x: ListenerId): (r: seq<ListenerId>)
    ensures x !in s ==> r == s
    ensures x in s ==> |r| == |s| - 1
    ensures multiset(r) == multiset(s) - multiset{x}
  {
    if s == [] then []
    else
      assert s == [s[0]] + s[1..];
      if s[0] == x then s[1..] else [s[0]] + RemoveFirst(s[1..], x)
  }

  /** The registry after `Arrays.asList(ps).forEach(listeners::remove)`. */
  function RemoveAll(s: seq<ListenerId>, ps: seq<ListenerId>): (r: seq<ListenerId>)
    ensures multiset(r) <= multiset(s)
    ensures |s| - |ps| <= |r| <= |s|
  {
    if ps == [] then s else RemoveFirst(RemoveAll(s, ps[..|ps| - 1]), ps[|ps| - 1])
  }

  /** Reference definition: the registry with the given listeners filtered
      out, everything else in its order. */
  function Without(s: seq<ListenerId>, ps: seq<ListenerId>): (r: seq<ListenerId>)
    ensures forall x :: x in r <==> x in s && x !in ps
    ensures NoDuplicates(s) ==> NoDuplicates(r)
  {
    if s == [] then []
    else (if s[0] in ps then [] else [s[0]]) + Without(s[1..], ps)
  }

  lemma {:induction false} RemoveFirstFilters(s: seq<ListenerId>, x: ListenerId)
    requires NoDuplicates(s)
    ensures RemoveFirst(s, x) == Without(s, [x])
  {
    if s != [] {
      if s[0] == x {
        WithoutAbsent(s[1..], [x]);
      } else {
        RemoveFirstFilters(s[1..], x);
      }
    }
  }

  lemma RemoveAllStep(s: seq<ListenerId>, ps: seq<ListenerId>, k: nat)
    requires k < |ps|
    ensures RemoveAll(s, ps[..k + 1]) == RemoveFirst(RemoveAll(s, ps[..k]), ps[k])
  {
    assert ps[..k + 1][..k] == ps[..k];
  }

  lemma RemoveFirstKeepsNoDuplicates(s: seq<ListenerId>, x: ListenerId)
    requires NoDuplicates(s)
    ensures NoDuplicates(RemoveFirst(s, x))
  {
    RemoveFirstFilters(s, x);
  }

  lemma {:induction false} WithoutAbsent(s: seq<ListenerId>, ps: seq<ListenerId>)
    requires forall x :: x in ps ==> x !in s
    ensures Without(s, ps) == s
  {
    if s != [] {
      assert s[0] in s;
      WithoutAbsent(s[1..], ps);
    }
  }

  lemma {:induction false} WithoutTwice(s: seq<ListenerId>, a: seq<ListenerId>, b: seq<ListenerId>)
    ensures Without(Without(s, a), b) == Without(s, a + b)
  {
    if s != [] {
      var t := Without(s[1..], a);
      WithoutTwice(s[1..], a, b);
      if s[0] in a {
        assert Without(s, a) == t;
      } else {
        assert Without(s, a) == [s[0]] + t;
        assert ([s[0]] + t)[0] == s[0] && ([s[0]] + t)[1..] == t;
        assert Without([s[0]] + t, b) == (if s[0] in b then [] else [s[0]]) + Without(t, b);
      }
    }
  }

  /** On a registry without duplicates, `removeListener(ps...)` removes
      exactly the given listeners and keeps every other one in its relative
      order. */
  lemma {:induction false} RemoveAllFilters(s: seq<ListenerId>, ps: seq<ListenerId>)
    requires NoDuplicates(s)
    ensures RemoveAll(s, ps) == Without(s, ps)
    ensures forall x :: x in ps ==> x !in RemoveAll(s, ps)
  {
    if ps == [] {
      WithoutAbsent(s, ps);
    } else {
      var ps', x := ps[..|ps| - 1], ps[|ps| - 1];
      assert ps' + [x] == ps;
      RemoveAllFilters(s, ps');
      var t := Without(s, ps');
      assert RemoveAll(s, ps) == RemoveFirst(t, x);
      RemoveFirstFilters(t, x);
      WithoutTwice(s, ps', [x]);
    }
  }

  /** Removing listeners that are not registered changes nothing, with or
      without duplicates; from an empty registry in particular. */
  lemma {:induction false} RemoveAllAbsent(s: seq<ListenerId>, ps: seq<ListenerId>)
    requires forall x :: x in ps ==> x !in s
    ensures RemoveAll(s, ps) == s
  {
    if ps != [] {
      RemoveAllAbsent(s, ps[..|ps| - 1]);
      assert ps[|ps| - 1] in ps;
    }
  }
}
