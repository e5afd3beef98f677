/** What every event keeps about one submission: the bookkeeping, its bounds, and the status shown. */
module ActivityInvariant {
  import opened Common
  import opened Bounded
  import opened Activity
  import N = Narration

  /** Running calls are in order of their sequence numbers, and no id runs twice. */
  ghost predicate Ordered(active: seq<Call>) {
    forall i, j :: 0 <= i < j < |active| ==> active[i].sequence < active[j].sequence && active[i].id != active[j].id
  }

  ghost predicate Tracked(sub: Sub) {
    && Ordered(sub.active)
    && (forall c :: c in sub.active ==>
          c.id in sub.seen && c.id !in sub.nonWork && c.descriptor.role == N.Work && c.sequence < sub.next)
    && Distinct(sub.nonWork)
    && (forall id :: id in sub.nonWork ==> id in sub.seen)
  }

  ghost predicate Counted(sub: Sub) {
    && |sub.active| + |sub.nonWork| + |sub.completed| <= |sub.seen| <= MAX_CALLS
    && |sub.facts| <= MAX_CALLS
  }

  ghost predicate Batched(sub: Sub) {
    && (sub.active == [] ==> sub.completed == [] && (sub.unsuccessful ==> sub.suppressed))
    && (sub.suppressed ==> sub.active == [] && sub.nonWork == [])
  }

  ghost predicate Ok(sub: Sub) {
    Tracked(sub) && Counted(sub) && Batched(sub)
  }

  // ---- the maps ----

  lemma {:induction false} WithoutCallIs(active: seq<Call>, id: string, k: nat)
    requires Ordered(active) && k < |active| && active[k].id == id
    ensures WithoutCall(active, id) == active[..k] + active[k + 1..]
    decreases |active|
  {
    if k == 0 {
      WithoutCallAbsent(active[1..], id);
    } else {
      WithoutCallIs(active[1..], id, k - 1);
      assert active[..k] == [active[0]] + active[1..][..k - 1];
      assert active[1..][k..] == active[k + 1..];
    }
  }

  lemma {:induction false} WithoutCallAbsent(active: seq<Call>, id: string)
    requires forall c :: c in active ==> c.id != id
    ensures WithoutCall(active, id) == active
  {
    if active != [] {
      WithoutCallAbsent(active[1..], id);
    }
  }

  lemma {:induction false} RedescribedAt(active: seq<Call>, id: string, d: Descriptor, k: nat)
    requires k < |active|
    ensures |Redescribed(active, id, d)| == |active|
    ensures Redescribed(active, id, d)[k] == if active[k].id == id then active[k].(descriptor := d) else active[k]
    decreases |active|
  {
    if |active| > 1 {
      RedescribedAt(active[1..], id, d, if k > 0 then k - 1 else 0);
    }
  }

  lemma {:induction false} WithoutFactShrinks(facts: seq<Fact>, id: string)
    ensures |WithoutFact(facts, id)| <= |facts|
  {
    if facts != [] {
      WithoutFactShrinks(facts[1..], id);
    }
  }

  lemma CallAt(active: seq<Call>, id: string) returns (k: nat)
    requires Ordered(active) && Runs(active, id)
    ensures k < |active| && active[k].id == id && CallOf(active, id) == Some(active[k])
  {
    var c := CallOf(active, id).value;
    k :| k < |active| && active[k] == c;
  }

  lemma RedescribedKeeps(active: seq<Call>, id: string, d: Descriptor)
    requires Ordered(active) && Runs(active, id)
    ensures var next := Redescribed(active, id, d);
            && |next| == |active| && Ordered(next) && next != []
            && (forall i :: 0 <= i < |next| ==>
                  next[i] == if active[i].id == id then active[i].(descriptor := d) else active[i])
  {
    forall i | 0 <= i < |active|
      ensures |Redescribed(active, id, d)| == |active|
      ensures Redescribed(active, id, d)[i] == if active[i].id == id then active[i].(descriptor := d) else active[i]
    {
      RedescribedAt(active, id, d, i);
    }
  }

  // ---- each event keeps the bookkeeping ----

  lemma EmitKeepsOk(sub: Sub, status: Status)
    requires Ok(sub)
    ensures Ok(Emit(sub, status).sub)
  {
  }

  lemma AppendKeepsOrder(active: seq<Call>, c: Call)
    requires Ordered(active) && forall o :: o in active ==> o.sequence < c.sequence && o.id != c.id
    ensures Ordered(active + [c])
  {
  }

  lemma NewCallIsOk(sub: Sub, facts: seq<Fact>, c: Call)
    requires Ok(sub) && !sub.suppressed && c.id !in sub.seen && |sub.seen| < MAX_CALLS && |facts| <= MAX_CALLS
    requires c.descriptor.role == N.Work && c.sequence == sub.next
    ensures Ok(sub.(seen := sub.seen + {c.id}, facts := facts, active := sub.active + [c], next := sub.next + 1))
  {
    AppendKeepsOrder(sub.active, c);
  }

  lemma HiddenCallIsOk(sub: Sub, facts: seq<Fact>, id: string)
    requires Ok(sub) && !sub.suppressed && id !in sub.seen && |sub.seen| < MAX_CALLS && |facts| <= MAX_CALLS
    ensures Ok(sub.(seen := sub.seen + {id}, facts := facts, nonWork := Added(sub.nonWork, id, MAX_CALLS)))
  {
    AddedKeeps(sub.nonWork, id, MAX_CALLS);
    assert Distinct(sub.nonWork + [id]);
  }

  lemma StartKeepsOk(copy: Copy, sub: Sub, id: string, baseline: Descriptor)
    requires Ok(sub) && !sub.suppressed
    ensures Ok(Start(copy, sub, id, baseline).sub)
  {
    WithoutFactShrinks(sub.facts, id);
    if id !in sub.seen && !Full(sub) {
      var d, facts := FactOf(sub.facts, id).UnwrapOr(baseline), WithoutFact(sub.facts, id);
      if d.role == N.Work {
        var c := Call(id, d, sub.next);
        NewCallIsOk(sub, facts, c);
        EmitKeepsOk(sub.(seen := sub.seen + {id}, facts := facts, active := sub.active + [c], next := sub.next + 1),
                    copy.started(d));
      } else {
        HiddenCallIsOk(sub, facts, id);
        EmitKeepsOk(sub.(seen := sub.seen + {id}, facts := facts, nonWork := Added(sub.nonWork, id, MAX_CALLS)),
                    copy.started(d));
      }
    }
  }

  /** Taking one running call out. */
  lemma WithoutCallKeeps(active: seq<Call>, id: string)
    requires Ordered(active) && Runs(active, id)
    ensures var left := WithoutCall(active, id);
            Ordered(left) && |left| == |active| - 1 && forall c :: c in left <==> c in active && c.id != id
  {
    var k := CallAt(active, id);
    WithoutCallIs(active, id, k);
  }

  lemma SettledCallIsOk(sub: Sub, id: string, completed: seq<Descriptor>, unsuccessful: bool)
    requires Ok(sub) && !sub.suppressed && Runs(sub.active, id) && |completed| <= |sub.completed| + 1
    requires WithoutCall(sub.active, id) == [] ==> completed == [] && !unsuccessful
    ensures Ok(sub.(active := WithoutCall(sub.active, id), completed := completed, unsuccessful := unsuccessful))
  {
    WithoutCallKeeps(sub.active, id);
  }

  lemma SettledHiddenIsOk(sub: Sub, id: string)
    requires Ok(sub) && !sub.suppressed && id in sub.nonWork
    ensures Ok(sub.(nonWork := Without(sub.nonWork, id)))
  {
    WithoutDistinct(sub.nonWork, id);
    WithoutMember(sub.nonWork, id);
  }

  /** What a settled running call leaves behind, before the status is emitted. */
  function Left(sub: Sub, id: string, isError: Option<bool>): Sub
    requires Runs(sub.active, id)
  {
    var left := WithoutCall(sub.active, id);
    sub.(active := left,
         completed := if left == [] then [] else sub.completed + [CallOf(sub.active, id).value.descriptor],
         unsuccessful := left != [] && (sub.unsuccessful || isError != Some(false)))
  }

  /** The status a settled running call leads to. */
  function LeftStatus(copy: Copy, sub: Sub, id: string, isError: Option<bool>): Status
    requires Runs(sub.active, id)
  {
    var left := WithoutCall(sub.active, id);
    if left != [] then copy.started(Latest(left).value.descriptor)
    else if sub.unsuccessful || isError != Some(false) then copy.reassessing
    else Review(copy, sub.completed + [CallOf(sub.active, id).value.descriptor])
  }

  lemma SettleRunning(copy: Copy, sub: Sub, id: string, isError: Option<bool>)
    requires id !in sub.nonWork && Runs(sub.active, id)
    ensures Settle(copy, sub, id, isError) == Emit(Left(sub, id, isError), LeftStatus(copy, sub, id, isError))
  {
  }

  lemma SettleKeepsOk(copy: Copy, sub: Sub, id: string, isError: Option<bool>)
    requires Ok(sub) && !sub.suppressed
    ensures Ok(Settle(copy, sub, id, isError).sub)
  {
    if id in sub.nonWork {
      SettledHiddenIsOk(sub, id);
    } else if Runs(sub.active, id) {
      SettleRunning(copy, sub, id, isError);
      var left := Left(sub, id, isError);
      SettledCallIsOk(sub, id, left.completed, left.unsuccessful);
      EmitKeepsOk(left, LeftStatus(copy, sub, id, isError));
    }
  }

  lemma RenamedIsOk(sub: Sub, facts: seq<Fact>, id: string, d: Descriptor)
    requires Ok(sub) && Runs(sub.active, id) && d.role == N.Work && |facts| <= MAX_CALLS
    ensures Ok(sub.(facts := facts, active := Redescribed(sub.active, id, d)))
  {
    RedescribedKeeps(sub.active, id, d);
    var next := Redescribed(sub.active, id, d);
    forall c | c in next
      ensures c.id in sub.seen && c.id !in sub.nonWork && c.descriptor.role == N.Work && c.sequence < sub.next
    {
      var i :| 0 <= i < |next| && next[i] == c;
      assert sub.active[i] in sub.active;
    }
  }

  function Noted(sub: Sub, id: string, d: Descriptor): seq<Fact> {
    Newest(WithoutFact(sub.facts, id) + [Fact(id, d)], MAX_CALLS)
  }

  lemma RegisterKeepsOk(copy: Copy, sub: Sub, id: string, d: Descriptor)
    requires Ok(sub)
    ensures Ok(Register(copy, sub, id, d).sub)
  {
    var facts := Noted(sub, id, d);
    assert |facts| <= MAX_CALLS;
    if Runs(sub.active, id) && d.role == N.Work {
      RenamedIsOk(sub, facts, id, d);
      EmitKeepsOk(sub.(facts := facts, active := Redescribed(sub.active, id, d)), copy.started(d));
    }
  }

  lemma ApplyKeepsOk(copy: Copy, sub: Sub, e: Event)
    requires Ok(sub)
    ensures Ok(Apply(copy, sub, e).sub)
  {
    match e
    case ToolStart(id, d) => if !sub.suppressed { StartKeepsOk(copy, sub, id, d); }
    case ToolEnd(id, isError) => if !sub.suppressed { SettleKeepsOk(copy, sub, id, isError); }
    case Told(id, d) => RegisterKeepsOk(copy, sub, id, d);
    case _ =>
  }

  /**
   * After any events: running, non-work and completed calls together never exceed the seen calls,
   * which never exceed 256; no id runs twice, and what runs or is hidden was seen.
   */
  lemma {:induction false} RunIsOk(copy: Copy, es: seq<Event>)
    ensures Ok(Run(copy, es))
    decreases |es|
  {
    if es != [] {
      RunIsOk(copy, es[..|es| - 1]);
      ApplyKeepsOk(copy, Run(copy, es[..|es| - 1]), es[|es| - 1]);
    }
  }

  // ---- the status while work runs ----

  /** The simple definition: the newest call with a known target, or the newest call if none has one. */
  ghost predicate IsShown(active: seq<Call>, c: Call) {
    && c in active
    && (Known(c.descriptor) ==> forall o :: o in active && Known(o.descriptor) ==> o.sequence <= c.sequence)
    && (!Known(c.descriptor) ==> forall o :: o in active ==> !Known(o.descriptor) && o.sequence <= c.sequence)
  }

  lemma {:induction false} LatestKnownIsNewest(active: seq<Call>)
    requires Ordered(active) && LatestKnown(active).Some?
    ensures forall o :: o in active && Known(o.descriptor) ==> o.sequence <= LatestKnown(active).value.sequence
    decreases |active|
  {
    var c, init := active[|active| - 1], active[..|active| - 1];
    assert active == init + [c];
    if !Known(c.descriptor) {
      LatestKnownIsNewest(init);
    }
  }

  /** `latestActiveCall` finds exactly the shown call. */
  lemma LatestIsShown(active: seq<Call>, c: Call)
    requires Ordered(active)
    ensures IsShown(active, c) <==> Latest(active) == Some(c)
  {
    if active != [] {
      if LatestKnown(active).Some? {
        LatestKnownIsNewest(active);
      }
      var l := Latest(active).value;
      assert IsShown(active, l);
      if IsShown(active, c) {
        assert l.sequence == c.sequence;
      }
    }
  }

  /** While work runs, the last status is the narration of the shown call. */
  ghost predicate Agrees(copy: Copy, sub: Sub) {
    forall c :: IsShown(sub.active, c) ==> sub.last == Some(copy.started(c.descriptor).text)
  }

  lemma AgreesIsLatest(copy: Copy, sub: Sub)
    requires Ordered(sub.active)
    ensures Agrees(copy, sub)
            <==> Shows(copy, sub.active, sub.last)
  {
    if sub.active != [] {
      var l := Latest(sub.active).value;
      LatestIsShown(sub.active, l);
      forall c | IsShown(sub.active, c) ensures c == l {
        LatestIsShown(sub.active, c);
      }
    } else {
      forall c ensures !IsShown(sub.active, c) {
      }
    }
  }

  lemma LatestAfterNew(active: seq<Call>, c: Call)
    requires active != []
    ensures Latest(active + [c]) == if Known(c.descriptor) || !Known(Latest(active).value.descriptor) then Some(c)
                                    else Latest(active)
  {
    assert (active + [c])[..|active|] == active;
  }

  /** The shown call's narration was emitted last, in terms of what `latestActiveCall` returns. */
  ghost predicate Shows(copy: Copy, active: seq<Call>, last: Option<string>) {
    active != [] ==> last == Some(copy.started(Latest(active).value.descriptor).text)
  }

  lemma LatestOfOne(active: seq<Call>, c: Call)
    requires active == []
    ensures Latest(active + [c]) == Some(c)
  {
    assert active + [c] == [c] && [c][..0] == [];
  }

  lemma NewCallShows(copy: Copy, active: seq<Call>, last: Option<string>, c: Call)
    requires Shows(copy, active, last) && forall o :: o in active ==> o.id != c.id
    ensures var next := active + [c];
            if Latest(next).value.id == c.id then Shows(copy, next, Some(copy.started(c.descriptor).text))
            else Shows(copy, next, last)
  {
    if active != [] {
      LatestAfterNew(active, c);
    } else {
      LatestOfOne(active, c);
    }
  }

  lemma StartKeepsAgreement(copy: Copy, sub: Sub, id: string, baseline: Descriptor)
    requires Shows(copy, sub.active, sub.last)
    ensures var sub' := Start(copy, sub, id, baseline).sub; Shows(copy, sub'.active, sub'.last)
  {
    var d := FactOf(sub.facts, id).UnwrapOr(baseline);
    if !Runs(sub.active, id) && d.role == N.Work {
      NewCallShows(copy, sub.active, sub.last, Call(id, d, sub.next));
    }
  }

  lemma SettleKeepsAgreement(copy: Copy, sub: Sub, id: string, isError: Option<bool>)
    requires Shows(copy, sub.active, sub.last)
    ensures var sub' := Settle(copy, sub, id, isError).sub; Shows(copy, sub'.active, sub'.last)
  {
  }

  // ---- facts about a running call ----

  /** A newer or better described call that would be shown in place of `id` once its target is unknown. */
  ghost predicate Rival(active: seq<Call>, id: string, o: Call)
    requires Runs(active, id)
  {
    o in active && o.id != id && (Known(o.descriptor) || o.sequence > CallOf(active, id).value.sequence)
  }

  /** The fact takes the known target away from the shown call while a rival runs. */
  ghost predicate Displaces(sub: Sub, id: string, d: Descriptor) {
    && !sub.suppressed && Runs(sub.active, id) && d.role == N.Work && !Known(d)
    && Latest(sub.active).value.id == id
    && exists o :: Rival(sub.active, id, o)
  }

  lemma RedescribedHas(active: seq<Call>, id: string, d: Descriptor, c: Call)
    requires Ordered(active) && Runs(active, id)
    ensures c.id != id ==> (c in Redescribed(active, id, d) <==> c in active)
    ensures c.id == id ==> (c in Redescribed(active, id, d) <==> c == CallOf(active, id).value.(descriptor := d))
  {
    RedescribedKeeps(active, id, d);
    var next := Redescribed(active, id, d);
    var k := CallAt(active, id);
    if c in next {
      var i :| 0 <= i < |next| && next[i] == c;
      assert c.id == id ==> i == k;
    }
    if c in active && c.id != id {
      var i :| 0 <= i < |active| && active[i] == c;
      assert next[i] == c;
    }
    assert next[k] == CallOf(active, id).value.(descriptor := d);
  }

  lemma KnownFactKeepsLatest(active: seq<Call>, id: string, d: Descriptor)
    requires Ordered(active) && Runs(active, id) && Known(d)
    ensures var next := Redescribed(active, id, d);
            next != [] && (Latest(next).value.id == id || Latest(next) == Latest(active))
  {
    RedescribedKeeps(active, id, d);
    var next := Redescribed(active, id, d);
    var l := Latest(next).value;
    if l.id != id {
      LatestIsShown(next, l);
      ShownBefore(active, id, d, l);
      LatestIsShown(active, l);
    }
  }

  lemma ShownBefore(active: seq<Call>, id: string, d: Descriptor, l: Call)
    requires Ordered(active) && Runs(active, id) && Known(d) && l.id != id && IsShown(Redescribed(active, id, d), l)
    ensures IsShown(active, l)
  {
    var c := CallOf(active, id).value;
    RedescribedHas(active, id, d, c.(descriptor := d));
    RedescribedHas(active, id, d, l);
    forall o | o in active && Known(o.descriptor) ensures o.sequence <= l.sequence {
      RedescribedHas(active, id, d, o);
      if o.id == id {
        SameCall(active, id, o);
      }
    }
  }

  lemma SameCall(active: seq<Call>, id: string, o: Call)
    requires Ordered(active) && o in active && o.id == id
    ensures CallOf(active, id) == Some(o)
  {
    var k := CallAt(active, id);
  }

  lemma UnknownFactKeepsOther(active: seq<Call>, id: string, d: Descriptor)
    requires Ordered(active) && Runs(active, id) && !Known(d) && Latest(active).value.id != id
    ensures var next := Redescribed(active, id, d); next != [] && Latest(next) == Latest(active)
  {
    RedescribedKeeps(active, id, d);
    var next, l := Redescribed(active, id, d), Latest(active).value;
    LatestIsShown(active, l);
    RedescribedHas(active, id, d, l);
    forall o | o in next
      ensures Known(o.descriptor) ==> o in active
      ensures !Known(l.descriptor) ==> !Known(o.descriptor) && o.sequence <= l.sequence
    {
      RedescribedHas(active, id, d, o);
    }
    LatestIsShown(next, l);
  }

  lemma UnknownFactOnShown(active: seq<Call>, id: string, d: Descriptor)
    requires Ordered(active) && Runs(active, id) && !Known(d) && Latest(active).value.id == id
    ensures var next := Redescribed(active, id, d);
            next != [] && (Latest(next).value.id != id <==> exists o :: Rival(active, id, o))
  {
    RedescribedKeeps(active, id, d);
    var next, c := Redescribed(active, id, d), CallOf(active, id).value;
    var c', l := c.(descriptor := d), Latest(next).value;
    RedescribedHas(active, id, d, c');
    RedescribedHas(active, id, d, l);
    LatestIsShown(next, l);
    if l.id != id {
      SameSequence(next, l, c');
      assert Rival(active, id, l);
    } else if o :| Rival(active, id, o) {
      RedescribedHas(active, id, d, o);
      assert false;
    }
  }

  lemma SameSequence(active: seq<Call>, a: Call, b: Call)
    requires Ordered(active) && a in active && b in active && a.id != b.id
    ensures a.sequence != b.sequence
  {
  }

  lemma RegisterRunning(copy: Copy, sub: Sub, id: string, d: Descriptor)
    requires !sub.suppressed && Runs(sub.active, id) && d.role == N.Work && Redescribed(sub.active, id, d) != []
    ensures var next, sub' := Redescribed(sub.active, id, d), Register(copy, sub, id, d).sub;
            && sub'.active == next
            && sub'.last == if Latest(next).value.id == id then Some(copy.started(d).text) else sub.last
  {
  }

  /**
   * A fact keeps the status in agreement exactly when it does not displace the shown call, or the
   * call shown instead happens to read the same.
   */
  lemma RegisterKeepsAgreementExactly(copy: Copy, sub: Sub, id: string, d: Descriptor)
    requires Ordered(sub.active) && Shows(copy, sub.active, sub.last)
    ensures var sub' := Register(copy, sub, id, d).sub;
            && Ordered(sub'.active)
            && (Displaces(sub, id, d) ==> sub'.active != [])
            && (Shows(copy, sub'.active, sub'.last) <==>
                (Displaces(sub, id, d) ==>
                   copy.started(Latest(sub'.active).value.descriptor).text
                   == copy.started(Latest(sub.active).value.descriptor).text))
  {
    if !sub.suppressed && Runs(sub.active, id) && d.role == N.Work {
      RedescribedKeeps(sub.active, id, d);
      RegisterRunning(copy, sub, id, d);
      var next := Redescribed(sub.active, id, d);
      RedescribedHas(sub.active, id, d, Latest(next).value);
      if Known(d) {
        KnownFactKeepsLatest(sub.active, id, d);
      } else if Latest(sub.active).value.id != id {
        UnknownFactKeepsOther(sub.active, id, d);
      } else {
        UnknownFactOnShown(sub.active, id, d);
      }
    } else {
      assert Register(copy, sub, id, d).sub.active == sub.active;
    }
  }

  // ---- whole runs ----

  /** No fact of the run displaces the shown call. */
  ghost predicate Steady(copy: Copy, es: seq<Event>) {
    forall i :: 0 <= i < |es| && es[i].Told? ==> !Displaces(Run(copy, es[..i]), es[i].id, es[i].descriptor)
  }

  lemma ApplyKeepsAgreement(copy: Copy, sub: Sub, e: Event)
    requires Ordered(sub.active) && Shows(copy, sub.active, sub.last)
    requires e.Told? ==> !Displaces(sub, e.id, e.descriptor)
    ensures var sub' := Apply(copy, sub, e).sub; Shows(copy, sub'.active, sub'.last)
  {
    match e
    case ToolStart(id, d) => if !sub.suppressed { StartKeepsAgreement(copy, sub, id, d); }
    case ToolEnd(id, isError) => if !sub.suppressed { SettleKeepsAgreement(copy, sub, id, isError); }
    case Told(id, d) => RegisterKeepsAgreementExactly(copy, sub, id, d);
    case _ =>
  }

  /**
   * After any events of which no fact displaces the shown call, the last status text is the narration
   * of the newest running call with a known target, or of the newest running call if none has one.
   */
  lemma {:induction false} StatusAgrees(copy: Copy, es: seq<Event>)
    requires Steady(copy, es)
    ensures Agrees(copy, Run(copy, es)) && Shows(copy, Run(copy, es).active, Run(copy, es).last)
    decreases |es|
  {
    if es != [] {
      var init, e := es[..|es| - 1], es[|es| - 1];
      forall i | 0 <= i < |init| && init[i].Told?
        ensures !Displaces(Run(copy, init[..i]), init[i].id, init[i].descriptor)
      {
        assert init[..i] == es[..i];
      }
      StatusAgrees(copy, init);
      RunIsOk(copy, init);
      ApplyKeepsAgreement(copy, Run(copy, init), e);
    }
    RunIsOk(copy, es);
    AgreesIsLatest(copy, Run(copy, es));
  }
}
