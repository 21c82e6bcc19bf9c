/** The per-listener ordering of `call` (EventManager.java, lines 88-115):
    the declared methods are sorted by the priority level of their
    `@EventListener` annotation, and only annotated methods are then
    considered. `List.sort` is stable, so methods of equal level keep their
    declaration order.

    `SortByLevel` is the order the dispatch uses: a stable sort of the
    annotated methods by level. `Compare` is the comparator as written,
    kept to show why the model sorts the annotated methods only. */
module PrioritySort {
  import opened EventTypes

  predicate AllAnnotated(s: seq<Handler>) {
    forall i :: 0 <= i < |s| ==> Annotated(s[i])
  }

  predicate SortedByLevel(s: seq<Handler>)
    requires AllAnnotated(s)
  {
    forall i, j :: 0 <= i < j < |s| ==> Level(s[i]) <= Level(s[j])
  }

  /** The annotated methods, in declaration order: the only ones `call`
      passes on (line 115). */
  function AnnotatedOnly(ms: seq<Handler>): (r: seq<Handler>)
    ensures AllAnnotated(r)
    ensures forall h :: h in r <==> h in ms && Annotated(h)
    ensures |r| <= |ms|
  {
    if ms == [] then []
    else (if Annotated(ms[0]) then [ms[0]] else []) + AnnotatedOnly(ms[1..])
  }

  /** The filter keeps every annotated method as often as it is declared
      and drops every other one. */
  lemma {:induction false} AnnotatedOnlyCounts(ms: seq<Handler>, h: Handler)
    ensures multiset(AnnotatedOnly(ms))[h] == if Annotated(h) then multiset(ms)[h] else 0
  {
    if ms != [] {
      assert ms == [ms[0]] + ms[1..];
      AnnotatedOnlyCounts(ms[1..], h);
    }
  }

  lemma {:induction false} NoneAnnotated(ms: seq<Handler>)
    requires forall h :: h in ms ==> !Annotated(h)
    ensures AnnotatedOnly(ms) == []
  {
    if ms != [] {
      assert ms[0] in ms;
      NoneAnnotated(ms[1..]);
    }
  }

  /** The handlers of level `lv`, in their order in `s`. */
  function AtLevel(s: seq<Handler>, lv: int): seq<Handler>
    requires AllAnnotated(s)
  {
    if s == [] then []
    else (if Level(s[0]) == lv then [s[0]] else []) + AtLevel(s[1..], lv)
  }

  /** Puts `h` in front of the first handler whose level is not lower, so
      that it stays ahead of the handlers of its own level. */
  function Insert(h: Handler, s: seq<Handler>): (r: seq<Handler>)
    requires Annotated(h) && AllAnnotated(s)
    ensures AllAnnotated(r)
    ensures multiset(r) == multiset(s) + multiset{h}
  {
    if s == [] || Level(h) <= Level(s[0]) then [h] + s
    else
      assert s == [s[0]] + s[1..];
      [s[0]] + Insert(h, s[1..])
  }

  lemma {:induction false} InsertKeepsSorted(h: Handler, s: seq<Handler>)
    requires Annotated(h) && AllAnnotated(s) && SortedByLevel(s)
    ensures SortedByLevel(Insert(h, s))
  {
    var r := Insert(h, s);
    if s == [] || Level(h) <= Level(s[0]) {
      forall i, j | 0 <= i < j < |r|
        ensures Level(r[i]) <= Level(r[j])
      {
        assert r[j] == s[j - 1];
        if i > 0 {
          assert r[i] == s[i - 1];
        }
      }
    } else {
      var t := Insert(h, s[1..]);
      InsertKeepsSorted(h, s[1..]);
      InsertAbove(h, s[1..], Level(s[0]));
      assert r == [s[0]] + t;
      forall i, j | 0 <= i < j < |r|
        ensures Level(r[i]) <= Level(r[j])
      {
        if i == 0 {
          assert r[j] == t[j - 1];
        } else {
          assert r[i] == t[i - 1] && r[j] == t[j - 1];
        }
      }
    }
  }

  /** Inserting keeps every level at or above a common bound. */
  lemma {:induction false} InsertAbove(h: Handler, s: seq<Handler>, lv: int)
    requires Annotated(h) && AllAnnotated(s)
    requires lv <= Level(h) && forall i :: 0 <= i < |s| ==> lv <= Level(s[i])
    ensures forall i :: 0 <= i < |Insert(h, s)| ==> lv <= Level(Insert(h, s)[i])
  {
    if s != [] && Level(s[0]) < Level(h) {
      InsertAbove(h, s[1..], lv);
      assert Insert(h, s) == [s[0]] + Insert(h, s[1..]);
    }
  }

  /** Stable sort by ascending level: the result is ordered by level and is
      a permutation of the input (with `StableByLevel` below, the handlers
      of each level keep their relative order). */
  function SortByLevel(s: seq<Handler>): (r: seq<Handler>)
    requires AllAnnotated(s)
    ensures AllAnnotated(r) && SortedByLevel(r)
    ensures multiset(r) == multiset(s)
  {
    if s == [] then []
    else
      assert s == [s[0]] + s[1..];
      InsertKeepsSorted(s[0], SortByLevel(s[1..]));
      Insert(s[0], SortByLevel(s[1..]))
  }

  lemma {:induction false} InsertAtLevel(h: Handler, s: seq<Handler>, lv: int)
    requires Annotated(h) && AllAnnotated(s) && SortedByLevel(s)
    ensures AtLevel(Insert(h, s), lv) == (if Level(h) == lv then [h] else []) + AtLevel(s, lv)
  {
    if s == [] || Level(h) <= Level(s[0]) {
      var r := [h] + s;
      assert Insert(h, s) == r;
      assert r[0] == h && r[1..] == s;
      assert AtLevel(r, lv) == (if Level(h) == lv then [h] else []) + AtLevel(s, lv);
    } else {
      var t := Insert(h, s[1..]);
      InsertAtLevel(h, s[1..], lv);
      var r := [s[0]] + t;
      assert Insert(h, s) == r;
      assert r[0] == s[0] && r[1..] == t;
      var pre := if Level(s[0]) == lv then [s[0]] else [];
      assert AtLevel(r, lv) == pre + AtLevel(t, lv);
      assert AtLevel(s, lv) == pre + AtLevel(s[1..], lv);
    }
  }

  /** Stability: for every level, the handlers of that level come out of the
      sort in the order they went in. */
  lemma {:induction false} StableByLevel(s: seq<Handler>, lv: int)
    requires AllAnnotated(s)
    ensures AtLevel(SortByLevel(s), lv) == AtLevel(s, lv)
  {
    if s != [] {
      StableByLevel(s[1..], lv);
      InsertAtLevel(s[0], SortByLevel(s[1..]), lv);
    }
  }

  /** The comparator of lines 89-109: the difference of the two levels when
      both methods are annotated, and 0 as soon as one of them is not. */
  function Compare(m1: Handler, m2: Handler): (c: int)
    ensures Annotated(m1) && Annotated(m2) ==> (c < 0 <==> Level(m1) < Level(m2))
    ensures Annotated(m1) && Annotated(m2) ==> (c > 0 <==> Level(m1) > Level(m2))
    ensures Annotated(m1) && Annotated(m2) ==> (c == 0 <==> Level(m1) == Level(m2))
    ensures !Annotated(m1) || !Annotated(m2) ==> c == 0
  {
    if Annotated(m1) && Annotated(m2) && m1.annotation.level != m2.annotation.level
    then m1.annotation.level - m2.annotation.level
    else 0
  }

  /** Where every method is annotated, `Compare` is a consistent order and
      `SortByLevel` sorts by it: no pair of its result is out of order under
      the comparator as written. */
  lemma SortByLevelOrderedByCompare(s: seq<Handler>)
    requires AllAnnotated(s)
    ensures var r := SortByLevel(s);
      forall i, j :: 0 <= i < j < |r| ==> Compare(r[i], r[j]) <= 0
  {
    var r := SortByLevel(s);
    forall i, j | 0 <= i < j < |r|
      ensures Compare(r[i], r[j]) <= 0
    {
      assert Level(r[i]) <= Level(r[j]);
    }
  }

  /** Every neighbouring pair is in order under `Compare`: what a merge sort
      (`List.sort`) takes to be an already sorted run and leaves as it is. */
  predicate RunInOrder(ms: seq<Handler>) {
    forall i :: 0 <= i < |ms| - 1 ==> Compare(ms[i], ms[i + 1]) <= 0
  }

  /** `Compare` is not transitive once unannotated methods are in the list:
      with an unannotated method declared between a level-1 and a level-0
      handler, the three form a run the sort leaves unchanged, and the
      level-1 handler is invoked first. Sorting the annotated methods alone
      puts the level-0 handler first. */
  lemma ComparatorLeavesLevelsUnsorted()
    ensures var late := Handler("late", Present(ALL, 1), []);
            var plain := Handler("plain", Absent, []);
            var early := Handler("early", Present(ALL, 0), []);
            && Compare(late, plain) == 0 && Compare(plain, early) == 0
            && Compare(late, early) > 0
            && RunInOrder([late, plain, early])
            && AnnotatedOnly([late, plain, early]) == [late, early]
            && !SortedByLevel(AnnotatedOnly([late, plain, early]))
            && SortByLevel(AnnotatedOnly([late, plain, early])) == [early, late]
  {
    var late := Handler("late", Present(ALL, 1), []);
    var plain := Handler("plain", Absent, []);
    var early := Handler("early", Present(ALL, 0), []);
    AnnotatedOnlyExample(late, plain, early);
    assert !SortedByLevel([late, early]) by {
      assert Level([late, early][0]) > Level([late, early][1]);
    }
    SortExample(late, early);
  }

  lemma AnnotatedOnlyExample(a: Handler, b: Handler, c: Handler)
    requires Annotated(a) && !Annotated(b) && Annotated(c)
    ensures AnnotatedOnly([a, b, c]) == [a, c]
  {
    assert [a, b, c][1..] == [b, c] && [b, c][1..] == [c] && [c][1..] == [];
    assert AnnotatedOnly([c]) == [c];
    assert AnnotatedOnly([b, c]) == [c];
  }

  lemma SortExample(a: Handler, b: Handler)
    requires Annotated(a) && Annotated(b) && Level(b) < Level(a)
    ensures SortByLevel([a, b]) == [b, a]
  {
    assert [a, b][1..] == [b] && [b][1..] == [];
    assert SortByLevel([b]) == Insert(b, []) == [b];
    assert Insert(a, []) == [a];
    assert Insert(a, [b]) == [b] + Insert(a, []);
  }
}
