/** Whole runs of the activity reducer: bounds, recency, eviction, and one submission among many. */
module ActivityTheorems {
  import opened Common
  import opened Bounded
  import opened Activity
  import opened ActivityInvariant
  import opened ActivityRuns
  import opened ActivityWorld

  ghost predicate Good(w: World) {
    && Distinct(w.order) && Distinct(w.settled) && |w.order| <= MAX_SUBMISSIONS && |w.settled| <= MAX_SUBMISSIONS
    && (forall k :: k in w.order <==> k in w.subs)
    && (forall k :: k in w.settled ==> k !in w.subs)
  }

  // ---- filtering ----

  lemma {:induction false} KeepMember(s: seq<Key>, instance: string)
    ensures forall k :: k in Keep(s, instance) <==> k in s && k.instance != instance
    ensures |Keep(s, instance)| <= |s|
  {
    if s != [] {
      KeepMember(s[1..], instance);
      assert s == [s[0]] + s[1..];
    }
  }

  /** `f` ascends along `s`. */
  ghost predicate Ascending<T>(f: T -> int, s: seq<T>) {
    forall i, j :: 0 <= i < j < |s| ==> f(s[i]) < f(s[j])
  }

  lemma AscendingTail<T>(f: T -> int, s: seq<T>)
    requires Ascending(f, s) && s != []
    ensures Ascending(f, s[1..]) && forall x :: x in s[1..] ==> f(s[0]) < f(x)
  {
  }

  lemma AscendingCons<T>(f: T -> int, x: T, s: seq<T>)
    requires Ascending(f, s) && forall y :: y in s ==> f(x) < f(y)
    ensures Ascending(f, [x] + s)
  {
  }

  lemma AscendingSnoc<T>(f: T -> int, s: seq<T>, x: T)
    requires Ascending(f, s) && forall y :: y in s ==> f(y) < f(x)
    ensures Ascending(f, s + [x])
  {
  }

  lemma {:induction false} AscendingKeep(f: Key -> int, s: seq<Key>, instance: string)
    requires Ascending(f, s)
    ensures Ascending(f, Keep(s, instance))
  {
    if s != [] {
      AscendingTail(f, s);
      AscendingKeep(f, s[1..], instance);
      KeepMember(s[1..], instance);
      if s[0].instance != instance {
        AscendingCons(f, s[0], Keep(s[1..], instance));
      }
    }
  }

  lemma {:induction false} AscendingWithout(f: Key -> int, s: seq<Key>, x: Key)
    requires Ascending(f, s)
    ensures Ascending(f, Without(s, x))
  {
    if s != [] {
      AscendingTail(f, s);
      AscendingWithout(f, s[1..], x);
      WithoutMember(s[1..], x);
      if s[0] != x {
        AscendingCons(f, s[0], Without(s[1..], x));
      }
    }
  }

  lemma {:induction false} DistinctKeep(s: seq<Key>, instance: string)
    requires Distinct(s)
    ensures Distinct(Keep(s, instance))
  {
    if s != [] {
      DistinctKeep(s[1..], instance);
      KeepMember(s[1..], instance);
      assert s[0] !in s[1..];
    }
  }

  // ---- every signal keeps the bounds ----

  /** A new key when 256 submissions are live: the oldest one is evicted and its key is settled. */
  lemma EvictOne(w: World)
    requires |w.order| == 257
    ensures Evict(w) == World(w.order[1..], w.subs - {w.order[0]}, Added(w.settled, w.order[0], MAX_SUBMISSIONS))
  {
  }

  lemma MoveToEnd(order: seq<Key>, k: Key)
    requires Distinct(order)
    ensures var next := Without(order, k) + [k];
            && Distinct(next) && (forall o :: o in next <==> o in order || o == k)
            && |next| == if k in order then |order| else |order| + 1
  {
    WithoutDistinct(order, k);
    WithoutMember(order, k);
  }

  lemma TouchNewIsGood(w: World, k: Key)
    requires Good(w) && k !in w.subs && k !in w.settled
    ensures Good(Touch(w, k)) && k in Touch(w, k).subs && k !in Touch(w, k).settled
    ensures Touch(w, k).subs[k] == FRESH
    ensures forall o :: o in Touch(w, k).subs && o != k ==> o in w.subs && Touch(w, k).subs[o] == w.subs[o]
  {
    var grown := w.(order := w.order + [k], subs := w.subs[k := FRESH]);
    assert Distinct(grown.order);
    if |w.order| == MAX_SUBMISSIONS {
      var oldest := w.order[0];
      assert grown.order[0] == oldest;
      EvictOne(grown);
      AddedFits(w.settled, oldest, MAX_SUBMISSIONS);
      EvictedIsGood(w.order, k);
    }
  }

  lemma EvictedIsGood(order: seq<Key>, k: Key)
    requires Distinct(order) && order != [] && k !in order
    ensures forall o :: o in (order + [k])[1..] <==> o == k || (o in order && o != order[0])
  {
    assert (order + [k])[1..] == order[1..] + [k];
    assert order == [order[0]] + order[1..];
  }

  lemma TouchIsGood(w: World, k: Key)
    requires Good(w) && k !in w.settled
    ensures Good(Touch(w, k)) && k in Touch(w, k).subs && Touch(w, k).subs[k] == Current(w, k)
    ensures forall o :: o in Touch(w, k).subs && o != k ==> o in w.subs && Touch(w, k).subs[o] == w.subs[o]
  {
    if k in w.subs {
      MoveToEnd(w.order, k);
    } else {
      TouchNewIsGood(w, k);
    }
  }

  lemma StepIsGood(copy: Copy, w: World, s: Signal)
    requires Good(w)
    ensures Good(Step(copy, w, s).world)
  {
    match PlanOf(s)
    case Nothing =>
    case Finish(k) =>
      WithoutDistinct(w.order, k);
      WithoutMember(w.order, k);
      AddedFits(w.settled, k, MAX_SUBMISSIONS);
    case Tell(k, e) =>
      if k !in w.settled {
        TouchIsGood(w, k);
      }
    case Clear(instance) =>
      KeepMember(w.order, instance);
      KeepMember(w.settled, instance);
      DistinctKeep(w.order, instance);
      DistinctKeep(w.settled, instance);
  }

  /** Live and settled keys stay disjoint, and there are at most 256 of each. */
  lemma {:induction false} KeysStayDisjoint(copy: Copy, ss: seq<Signal>)
    ensures Good(After(copy, ss))
    decreases |ss|
  {
    if ss != [] {
      KeysStayDisjoint(copy, ss[..|ss| - 1]);
      StepIsGood(copy, After(copy, ss[..|ss| - 1]), ss[|ss| - 1]);
    }
  }

  /** Every live submission is in order. */
  ghost predicate AllOk(w: World) {
    forall k :: k in w.subs ==> Ok(w.subs[k])
  }

  lemma CurrentIsOk(w: World, k: Key)
    requires AllOk(w)
    ensures Ok(Current(w, k))
  {
  }

  lemma StepKeepsAllOk(copy: Copy, w: World, s: Signal)
    requires Good(w) && AllOk(w)
    ensures AllOk(Step(copy, w, s).world)
  {
    var next := Step(copy, w, s).world;
    forall k | k in next.subs ensures Ok(next.subs[k]) {
      StepOthers(copy, w, s, k);
      if Touches(w, s, k) {
        CurrentIsOk(w, k);
        ApplyKeepsOk(copy, Current(w, k), PlanOf(s).event);
      }
    }
  }

  // ---- recency ----

  predicate Touches(w: World, s: Signal, k: Key) {
    PlanOf(s).Tell? && PlanOf(s).key == k && k !in w.settled
  }

  /** The position of the last signal that used `k`, or -1. */
  function LastTouch(copy: Copy, ss: seq<Signal>, k: Key): (n: int)
    ensures n < |ss|
    decreases |ss|
  {
    if ss == [] then -1
    else if Touches(After(copy, ss[..|ss| - 1]), ss[|ss| - 1], k) then |ss| - 1
    else LastTouch(copy, ss[..|ss| - 1], k)
  }

  ghost function TouchOrder(copy: Copy, ss: seq<Signal>): Key -> int {
    (k: Key) => LastTouch(copy, ss, k)
  }

  lemma SameOrder<T>(f: T -> int, g: T -> int, s: seq<T>)
    requires Ascending(f, s) && forall x :: x in s ==> f(x) == g(x)
    ensures Ascending(g, s)
  {
  }

  lemma TouchedOrder(w: World, k: Key)
    requires Good(w) && k !in w.settled
    ensures var order := Touch(w, k).order;
            || order == Without(w.order, k) + [k]
            || (k !in w.subs && |w.order| == MAX_SUBMISSIONS && order == w.order[1..] + [k])
  {
    if k !in w.subs {
      WithoutAbsent(w.order, k);
      if |w.order| == MAX_SUBMISSIONS {
        EvictOne(w.(order := w.order + [k], subs := w.subs[k := FRESH]));
      }
    }
  }

  /** One step: everything but the touched key keeps its place. */
  lemma OrderAfter(w: World, k: Key, f: Key -> int, g: Key -> int)
    requires Good(w) && k !in w.settled && Ascending(f, w.order)
    requires forall o :: o in w.order && o != k ==> g(o) == f(o) && g(o) < g(k)
    ensures Ascending(g, Touch(w, k).order)
  {
    TouchedOrder(w, k);
    WithoutMember(w.order, k);
    AscendingWithout(f, w.order, k);
    SameOrder(f, g, Without(w.order, k));
    AscendingSnoc(g, Without(w.order, k), k);
    if k !in w.subs && |w.order| == MAX_SUBMISSIONS {
      AscendingTail(f, w.order);
      SameOrder(f, g, w.order[1..]);
      AscendingSnoc(g, w.order[1..], k);
    }
  }

  lemma OrderAfterStep(copy: Copy, w: World, s: Signal, f: Key -> int, g: Key -> int)
    requires Good(w) && Ascending(f, w.order)
    requires forall o :: o in w.order && !Touches(w, s, o) ==> g(o) == f(o)
    requires forall o, k :: o in w.order && !Touches(w, s, o) && Touches(w, s, k) ==> g(o) < g(k)
    ensures Ascending(g, Step(copy, w, s).world.order)
  {
    match PlanOf(s)
    case Nothing => SameOrder(f, g, w.order);
    case Finish(k) =>
      AscendingWithout(f, w.order, k);
      WithoutMember(w.order, k);
      SameOrder(f, g, Without(w.order, k));
    case Tell(k, e) =>
      if k in w.settled {
        SameOrder(f, g, w.order);
      } else {
        assert Touches(w, s, k);
        OrderAfter(w, k, f, g);
      }
    case Clear(instance) =>
      AscendingKeep(f, w.order, instance);
      KeepMember(w.order, instance);
      SameOrder(f, g, Keep(w.order, instance));
  }

  /** The live submissions are kept in the order of their last use. */
  lemma {:induction false} OrderIsRecency(copy: Copy, ss: seq<Signal>)
    ensures Ascending(TouchOrder(copy, ss), After(copy, ss).order)
    decreases |ss|
  {
    if ss != [] {
      var init, s := ss[..|ss| - 1], ss[|ss| - 1];
      OrderIsRecency(copy, init);
      KeysStayDisjoint(copy, init);
      OrderAfterStep(copy, After(copy, init), s, TouchOrder(copy, init), TouchOrder(copy, ss));
    }
  }

  /**
   * A live submission disappears only when it is settled, when its instance is cleared, or when a new
   * submission arrives while 256 are live and every other live one was used after it. The evicted key
   * counts as settled from then on.
   */
  lemma OnlyLeastRecentIsEvicted(copy: Copy, ss: seq<Signal>, s: Signal, k: Key)
    requires var w := After(copy, ss); k in w.subs && k !in Step(copy, w, s).world.subs
    ensures var w := After(copy, ss);
            || PlanOf(s) == Finish(k)
            || PlanOf(s) == Clear(k.instance)
            || (&& PlanOf(s).Tell? && PlanOf(s).key !in w.subs && |w.order| == MAX_SUBMISSIONS
                && (forall o :: o in w.subs && o != k ==> LastTouch(copy, ss, k) < LastTouch(copy, ss, o))
                && k in Step(copy, w, s).world.settled)
  {
    var w := After(copy, ss);
    KeysStayDisjoint(copy, ss);
    if PlanOf(s).Tell? {
      EvictedIsOldest(w, PlanOf(s).key, k);
      OrderIsRecency(copy, ss);
      AscendingTail(TouchOrder(copy, ss), w.order);
      forall o | o in w.subs && o != k ensures LastTouch(copy, ss, k) < LastTouch(copy, ss, o) {
        assert w.order == [w.order[0]] + w.order[1..];
        assert TouchOrder(copy, ss)(k) < TouchOrder(copy, ss)(o);
      }
    }
  }

  lemma EvictedIsOldest(w: World, new': Key, k: Key)
    requires Good(w) && new' !in w.settled && k in w.subs && k !in Touch(w, new').subs
    ensures new' !in w.subs && |w.order| == MAX_SUBMISSIONS && k == w.order[0] && k in Touch(w, new').settled
  {
    if new' !in w.subs && |w.order| == MAX_SUBMISSIONS {
      EvictOne(w.(order := w.order + [new'], subs := w.subs[new' := FRESH]));
      AddedFits(w.settled, w.order[0], MAX_SUBMISSIONS);
    }
  }

  // ---- one submission among many ----

  /** The events told about `k` since it was last created. */
  function Life(copy: Copy, ss: seq<Signal>, k: Key): seq<Event>
    decreases |ss|
  {
    if ss == [] then []
    else
      var init, s := ss[..|ss| - 1], ss[|ss| - 1];
      var w := After(copy, init);
      if Touches(w, s, k) then (if k in w.subs then Life(copy, init, k) else []) + [PlanOf(s).event]
      else Life(copy, init, k)
  }

  lemma RunSnoc(copy: Copy, es: seq<Event>, e: Event)
    ensures Run(copy, es + [e]) == Apply(copy, Run(copy, es), e).sub
  {
    assert (es + [e])[..|es + [e]| - 1] == es;
  }

  lemma StepOthers(copy: Copy, w: World, s: Signal, k: Key)
    requires Good(w) && k in Step(copy, w, s).world.subs
    ensures if Touches(w, s, k) then Step(copy, w, s).world.subs[k] == Apply(copy, Current(w, k), PlanOf(s).event).sub
            else k in w.subs && Step(copy, w, s).world.subs[k] == w.subs[k]
  {
    if PlanOf(s).Tell? && PlanOf(s).key !in w.settled {
      TouchIsGood(w, PlanOf(s).key);
    }
  }

  /**
   * Other submissions do not interfere: the state of a live submission is the run of exactly the
   * events told about it since it was created. So everything proved about one run holds for it.
   */
  lemma {:induction false} LiveStateIsItsOwnRun(copy: Copy, ss: seq<Signal>, k: Key)
    requires k in After(copy, ss).subs
    ensures After(copy, ss).subs[k] == Run(copy, Life(copy, ss, k))
    decreases |ss|
  {
    var init, s := ss[..|ss| - 1], ss[|ss| - 1];
    var w := After(copy, init);
    KeysStayDisjoint(copy, init);
    StepOthers(copy, w, s, k);
    if k in w.subs {
      LiveStateIsItsOwnRun(copy, init, k);
    }
    if Touches(w, s, k) {
      RunSnoc(copy, if k in w.subs then Life(copy, init, k) else [], PlanOf(s).event);
    }
  }

  /** Delivering a tool event of the current attempt again changes nothing but the recency of its submission. */
  lemma RedeliveryChangesOnlyRecency(copy: Copy, ss: seq<Signal>, s: Signal, k: Key, i: nat)
    requires PlanOf(s).Tell? && PlanOf(s).key == k && k in After(copy, ss).subs
    requires var life := Life(copy, ss, k);
             i < |life| && Repeats(life[i], PlanOf(s).event) && OneAttempt(copy, life, i + 1)
    ensures var w := After(copy, ss);
            Step(copy, w, s) == Reply(w.(order := Without(w.order, k) + [k]), None)
  {
    var w := After(copy, ss);
    KeysStayDisjoint(copy, ss);
    LiveStateIsItsOwnRun(copy, ss, k);
    RedeliveryChangesNothing(copy, Life(copy, ss, k), i, PlanOf(s).event);
    assert w.subs[k := w.subs[k]] == w.subs;
  }
}
