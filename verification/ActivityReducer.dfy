/** The activity reducer as the source writes it (src/activity/lifecycle.ts), proved against its functions. */
module ActivityReducer {
  import opened Common
  import opened Bounded
  import A = Activity
  import N = Narration
  import opened ActivityInvariant
  import W = ActivityWorld
  import opened ActivityTheorems

  /** The loop that drops the oldest elements. */
  method DropOldestOf<T>(all: seq<T>, limit: nat) returns (r: seq<T>)
    ensures r == Newest(all, limit)
  {
    r := all;
    while |r| > limit
      invariant |r| <= |all| && r == all[|all| - |r|..] && (|r| < limit ==> r == all)
    {
      r := r[1..];
    }
  }

  method AddBounded<T(==)>(s: seq<T>, value: T, limit: nat) returns (r: seq<T>)
    ensures r == Added(s, value, limit)
  {
    r := DropOldestOf(Without(s, value) + [value], limit);
  }

  method SetBounded(facts: seq<A.Fact>, id: string, d: A.Descriptor, limit: nat) returns (r: seq<A.Fact>)
    ensures r == Newest(A.WithoutFact(facts, id) + [A.Fact(id, d)], limit)
  {
    r := DropOldestOf(A.WithoutFact(facts, id) + [A.Fact(id, d)], limit);
  }

  /** `latestActiveCall`: one pass that keeps the newest call and the newest call with a known target. */
  method LatestActiveCall(active: seq<A.Call>) returns (r: Option<A.Call>)
    requires Ordered(active)
    ensures r == A.Latest(active)
    ensures forall c :: IsShown(active, c) <==> r == Some(c)
  {
    var latest: Option<A.Call> := None;
    var latestSpecific: Option<A.Call> := None;
    for k := 0 to |active|
      invariant latest == if k == 0 then None else Some(active[k - 1])
      invariant latestSpecific == A.LatestKnown(active[..k])
    {
      var entry := active[k];
      assert active[..k + 1][..k] == active[..k];
      if latest.None? || entry.sequence > latest.value.sequence {
        latest := Some(entry);
      }
      if A.Known(entry.descriptor) && (latestSpecific.None? || entry.sequence > latestSpecific.value.sequence) {
        latestSpecific := Some(entry);
      }
    }
    assert active[..|active|] == active;
    r := if latestSpecific.Some? then latestSpecific else latest;
    forall c ensures IsShown(active, c) <==> r == Some(c) {
      LatestIsShown(active, c);
    }
  }

  class Submission {
    const copy: A.Copy
    var attemptCount: Option<int>
    var nextSequence: nat
    var activeWork: seq<A.Call>
    var nonWorkCallIds: seq<string>
    var seenCallIds: set<string>
    var invocationFacts: seq<A.Fact>
    var completedDescriptors: seq<A.Descriptor>
    var batchUnsuccessful: bool
    var suppressed: bool
    var lastStatusText: Option<string>

    function Value(): A.Sub
      reads this
    {
      A.Sub(attemptCount, nextSequence, activeWork, nonWorkCallIds, seenCallIds, invocationFacts,
            completedDescriptors, batchUnsuccessful, suppressed, lastStatusText)
    }

    constructor (copy: A.Copy)
      ensures Value() == A.FRESH && this.copy == copy
    {
      this.copy := copy;
      attemptCount, nextSequence, activeWork, nonWorkCallIds, seenCallIds := None, 0, [], [], {};
      invocationFacts, completedDescriptors := [], [];
      batchUnsuccessful, suppressed, lastStatusText := false, false, None;
    }

    method Emit(status: A.Status) returns (shown: Option<A.Status>)
      modifies this`lastStatusText
      ensures A.Out(Value(), shown) == A.Emit(old(Value()), status)
    {
      if lastStatusText == Some(status.text) {
        return None;
      }
      lastStatusText := Some(status.text);
      shown := Some(status);
    }

    method Suppress()
      modifies this
      ensures Value() == A.Suppress(old(Value()))
    {
      activeWork := [];
      nonWorkCallIds := [];
      invocationFacts := [];
      completedDescriptors := [];
      batchUnsuccessful := true;
      suppressed := true;
    }

    method ResetAttempt()
      modifies this
      ensures Value() == A.Reset(old(Value()))
    {
      nextSequence := 0;
      activeWork := [];
      nonWorkCallIds := [];
      seenCallIds := {};
      invocationFacts := [];
      completedDescriptors := [];
      batchUnsuccessful := false;
      suppressed := false;
      lastStatusText := None;
    }

    method RecordNewCall(id: string) returns (isNew: bool)
      modifies this
      ensures isNew == (id !in old(seenCallIds) && |old(seenCallIds)| < A.MAX_CALLS)
      ensures Value() == if isNew then old(Value()).(seen := old(seenCallIds) + {id})
                         else if id in old(seenCallIds) then old(Value())
                         else A.Suppress(old(Value()))
    {
      if id in seenCallIds {
        return false;
      }
      if |seenCallIds| >= A.MAX_CALLS {
        Suppress();
        return false;
      }
      seenCallIds := seenCallIds + {id};
      isNew := true;
    }

    method ObserveAttempt(count: Option<int>) returns (shown: Option<A.Status>)
      modifies this
      ensures A.Out(Value(), shown) == A.Attempt(copy, old(Value()), count)
    {
      shown := None;
      if count.None? || count.value < 1 {
        return;
      }
      if attemptCount.None? {
        attemptCount := count;
        return;
      }
      if count.value <= attemptCount.value {
        return;
      }
      attemptCount := count;
      ResetAttempt();
      shown := Emit(copy.thinking);
    }

    method ObserveToolStart(id: string, baseline: A.Descriptor) returns (shown: Option<A.Status>)
      requires Ok(Value()) && !suppressed
      modifies this
      ensures A.Out(Value(), shown) == A.Start(copy, old(Value()), id, baseline)
    {
      if A.Runs(activeWork, id) || id in nonWorkCallIds {
        return None;
      }
      var isNew := RecordNewCall(id);
      if !isNew {
        return None;
      }
      var descriptor := A.FactOf(invocationFacts, id).UnwrapOr(baseline);
      invocationFacts := A.WithoutFact(invocationFacts, id);
      if descriptor.role != N.Work {
        shown := StartHidden(id, descriptor);
      } else {
        shown := StartWork(id, descriptor);
      }
    }

    method StartHidden(id: string, descriptor: A.Descriptor) returns (shown: Option<A.Status>)
      modifies this
      ensures A.Out(Value(), shown) == A.StartHidden(copy, old(Value()), id, descriptor)
    {
      nonWorkCallIds := AddBounded(nonWorkCallIds, id, A.MAX_CALLS);
      if descriptor.role != N.AnswerGeneration || |activeWork| > 0 {
        return None;
      }
      shown := Emit(copy.started(descriptor));
    }

    method StartWork(id: string, descriptor: A.Descriptor) returns (shown: Option<A.Status>)
      requires Ordered(activeWork) && forall o :: o in activeWork ==> o.sequence < nextSequence && o.id != id
      modifies this
      ensures A.Out(Value(), shown) == A.StartWork(copy, old(Value()), id, descriptor)
    {
      PutIn(id, descriptor);
      var latest := LatestActiveCall(activeWork);
      if latest.value.id != id {
        return None;
      }
      shown := Emit(copy.started(descriptor));
    }

    method PutIn(id: string, descriptor: A.Descriptor)
      requires Ordered(activeWork) && forall o :: o in activeWork ==> o.sequence < nextSequence && o.id != id
      modifies this
      ensures Value() == old(Value()).(active := old(activeWork) + [A.Call(id, descriptor, old(nextSequence))],
                                       next := old(nextSequence) + 1)
      ensures Ordered(activeWork) && activeWork != []
    {
      AppendKeepsOrder(activeWork, A.Call(id, descriptor, nextSequence));
      activeWork := activeWork + [A.Call(id, descriptor, nextSequence)];
      nextSequence := nextSequence + 1;
    }

    method ObserveToolSettlement(id: string, isError: Option<bool>) returns (shown: Option<A.Status>)
      requires Ok(Value()) && !suppressed
      modifies this
      ensures A.Out(Value(), shown) == A.Settle(copy, old(Value()), id, isError)
    {
      if id in nonWorkCallIds {
        nonWorkCallIds := Without(nonWorkCallIds, id);
        return None;
      }
      if !A.Runs(activeWork, id) {
        var _ := RecordNewCall(id);
        return None;
      }
      SettleRunning(copy, Value(), id, isError);
      shown := SettleWork(id, isError);
    }

    method TakeOut(id: string, isError: Option<bool>)
      requires A.Runs(activeWork, id)
      modifies this
      ensures Value() == old(Value()).(active := A.WithoutCall(old(activeWork), id),
                                       completed := old(completedDescriptors)
                                         + [A.CallOf(old(activeWork), id).value.descriptor],
                                       unsuccessful := old(batchUnsuccessful) || isError != Some(false))
    {
      var completed := A.CallOf(activeWork, id);
      activeWork := A.WithoutCall(activeWork, id);
      completedDescriptors := completedDescriptors + [completed.value.descriptor];
      if isError != Some(false) {
        batchUnsuccessful := true;
      }
    }

    /** The part of a settlement for a running call. */
    method SettleWork(id: string, isError: Option<bool>) returns (shown: Option<A.Status>)
      requires Ordered(activeWork) && A.Runs(activeWork, id)
      modifies this
      ensures A.Out(Value(), shown)
              == A.Emit(Left(old(Value()), id, isError), LeftStatus(copy, old(Value()), id, isError))
    {
      WithoutCallKeeps(activeWork, id);
      TakeOut(id, isError);
      var remaining := LatestActiveCall(activeWork);
      if remaining.Some? {
        shown := Emit(copy.started(remaining.value.descriptor));
      } else {
        var status := if batchUnsuccessful then copy.reassessing else A.Review(copy, completedDescriptors);
        completedDescriptors := [];
        batchUnsuccessful := false;
        shown := Emit(status);
      }
    }

    method RegisterFact(id: string, d: A.Descriptor) returns (shown: Option<A.Status>)
      requires Ok(Value())
      modifies this
      ensures A.Out(Value(), shown) == A.Register(copy, old(Value()), id, d)
    {
      if suppressed || (id in seenCallIds && !A.Runs(activeWork, id)) {
        return None;
      }
      invocationFacts := SetBounded(invocationFacts, id, d, A.MAX_CALLS);
      if !A.Runs(activeWork, id) || d.role != N.Work {
        return None;
      }
      shown := Redescribe(id, d);
    }

    method Redescribe(id: string, d: A.Descriptor) returns (shown: Option<A.Status>)
      requires Ordered(activeWork) && A.Runs(activeWork, id)
      modifies this
      ensures var renamed := old(Value()).(active := A.Redescribed(old(activeWork), id, d));
              var first := renamed.active != [] && A.Latest(renamed.active).value.id == id;
              A.Out(Value(), shown) == if first then A.Emit(renamed, copy.started(d)) else A.Out(renamed, None)
    {
      RedescribedKeeps(activeWork, id, d);
      activeWork := A.Redescribed(activeWork, id, d);
      var latest := LatestActiveCall(activeWork);
      if latest.value.id != id {
        return None;
      }
      shown := Emit(copy.started(d));
    }

    /** One event, dispatched. */
    method Take(e: A.Event) returns (shown: Option<A.Status>)
      requires Ok(Value())
      modifies this
      ensures A.Out(Value(), shown) == A.Apply(copy, old(Value()), e)
      ensures Ok(Value())
    {
      ApplyKeepsOk(copy, Value(), e);
      match e
      case Queued => shown := None;
      case Running(count) => shown := ObserveAttempt(count);
      case ToolStart(id, d) =>
        if suppressed { shown := None; } else { shown := ObserveToolStart(id, d); }
      case ToolEnd(id, isError) =>
        if suppressed { shown := None; } else { shown := ObserveToolSettlement(id, isError); }
      case Told(id, d) => shown := RegisterFact(id, d);
    }
  }

  class ActivityLifecycleReducer {
    const copy: A.Copy
    var submissions: map<W.Key, Submission>
    var order: seq<W.Key>
    var settledSubmissions: seq<W.Key>

    function Value(): W.World
      reads this, submissions.Values
    {
      W.World(order, map k | k in submissions :: submissions[k].Value(), settledSubmissions)
    }

    /** The states are different objects. */
    ghost predicate Apart()
      reads this, submissions.Values
    {
      && (forall k :: k in submissions ==> submissions[k].copy == copy)
      && (forall k, o :: k in submissions && o in submissions && k != o ==> submissions[k] != submissions[o])
    }

    ghost predicate Valid()
      reads this, submissions.Values
    {
      Apart() && Good(Value()) && AllOk(Value())
    }

    constructor (copy: A.Copy)
      ensures Valid() && Value() == W.EMPTY && this.copy == copy
    {
      this.copy := copy;
      submissions, order, settledSubmissions := map[], [], [];
    }

    method DropOldest()
      requires |order| > 0
      modifies this
      ensures var was := old(Value());
              Value() == W.World(was.order[1..], was.subs - {was.order[0]},
                Added(was.settled, was.order[0], W.MAX_SUBMISSIONS))
      ensures submissions == old(submissions) - {old(order)[0]}
    {
      var oldest := order[0];
      order := order[1..];
      submissions := submissions - {oldest};
      settledSubmissions := AddBounded(settledSubmissions, oldest, W.MAX_SUBMISSIONS);
      assert Value().subs == old(Value()).subs - {oldest};
    }

    /** The loop of `state` that drops the oldest submissions. */
    method EvictOldest()
      modifies this
      ensures Value() == W.Evict(old(Value()))
      ensures forall o :: o in submissions ==> o in old(submissions) && submissions[o] == old(submissions)[o]
    {
      while |order| > W.MAX_SUBMISSIONS
        invariant W.Evict(Value()) == W.Evict(old(Value()))
        invariant forall o :: o in submissions ==> o in old(submissions) && submissions[o] == old(submissions)[o]
        decreases |order|
      {
        DropOldest();
      }
    }

    /** The part of `state` for a new key. */
    method Create(k: W.Key) returns (s: Submission)
      requires k !in submissions
      modifies this
      ensures fresh(s) && s.Value() == A.FRESH && s.copy == copy && Value() == W.Touch(old(Value()), k)
      ensures forall o :: o in submissions && o != k ==> o in old(submissions) && submissions[o] == old(submissions)[o]
      ensures k in submissions ==> submissions[k] == s
    {
      ghost var before := Value();
      s := new Submission(copy);
      order := order + [k];
      submissions := submissions[k := s];
      assert Value().subs == before.subs[k := A.FRESH];
      EvictOldest();
    }

    /** The part of `state` for a live key. */
    method Renew(k: W.Key)
      requires k in submissions
      modifies this`order
      ensures Value() == W.Touch(old(Value()), k)
    {
      order := Without(order, k) + [k];
      assert Value().subs == old(Value()).subs;
    }

    /** `state`: finds or creates the submission of `k` and makes it the newest. */
    method State(k: W.Key) returns (s: Submission)
      requires Apart() && k in W.Touch(Value(), k).subs
      modifies this
      ensures Apart() && Value() == W.Touch(old(Value()), k)
      ensures k in submissions && submissions[k] == s && s.Value() == W.Current(old(Value()), k)
      ensures forall o :: o in submissions ==>
                if o in old(submissions) then submissions[o] == old(submissions)[o] else fresh(submissions[o])
    {
      if k in submissions {
        s := submissions[k];
        Renew(k);
      } else {
        s := Create(k);
        assert k in Value().subs;
      }
    }

    /** Lets one submission take an event. */
    method Deliver(k: W.Key, s: Submission, e: A.Event) returns (shown: Option<A.Status>)
      requires Apart() && k in submissions && submissions[k] == s && Ok(s.Value())
      modifies s
      ensures Apart() && A.Out(s.Value(), shown) == A.Apply(copy, old(s.Value()), e)
      ensures Value() == old(Value()).(subs := old(Value()).subs[k := s.Value()])
    {
      shown := s.Take(e);
      assert Value().subs == old(Value()).subs[k := s.Value()];
    }

    /** Tells the submission of `k` about an event. */
    method Tell(k: W.Key, e: A.Event) returns (shown: Option<A.Status>)
      requires Apart() && k in W.Touch(Value(), k).subs && Ok(W.Current(Value(), k))
      modifies this, submissions.Values
      ensures Apart()
      ensures var out, touched := A.Apply(copy, W.Current(old(Value()), k), e), W.Touch(old(Value()), k);
              Value() == touched.(subs := touched.subs[k := out.sub]) && shown == out.status
      ensures forall o :: o in submissions ==>
                if o in old(submissions) then submissions[o] == old(submissions)[o] else fresh(submissions[o])
    {
      var s := State(k);
      shown := Deliver(k, s, e);
    }

    method Observe(o: W.Observation) returns (shown: Option<A.Status>)
      requires Valid()
      modifies this, submissions.Values
      ensures Valid() && W.Reply(Value(), shown) == W.Step(copy, old(Value()), W.Observe(o))
      ensures forall k :: k in submissions ==>
                if k in old(submissions) then submissions[k] == old(submissions)[k] else fresh(submissions[k])
    {
      StepIsGood(copy, Value(), W.Observe(o));
      StepKeepsAllOk(copy, Value(), W.Observe(o));
      shown := None;
      if W.Absent(o.instance) || W.Absent(o.submission) {
        return;
      }
      var key := W.Key(o.instance.value, o.submission.value);
      if o.kind == W.SubmissionSettled {
        Finish(key);
        return;
      }
      if key in settledSubmissions {
        return;
      }
      TouchIsGood(Value(), key);
      CurrentIsOk(Value(), key);
      shown := ObserveLive(key, o);
    }

    /** The part of `observe` for a submission that is not settled. */
    method ObserveLive(key: W.Key, o: W.Observation) returns (shown: Option<A.Status>)
      requires Apart() && key in W.Touch(Value(), key).subs && Ok(W.Current(Value(), key))
      requires !W.Absent(o.instance) && !W.Absent(o.submission) && key == W.Key(o.instance.value, o.submission.value)
      requires key !in settledSubmissions && o.kind != W.SubmissionSettled
      modifies this, submissions.Values
      ensures Apart() && W.Reply(Value(), shown) == W.Step(copy, old(Value()), W.Observe(o))
      ensures forall k :: k in submissions ==>
                if k in old(submissions) then submissions[k] == old(submissions)[k] else fresh(submissions[k])
    {
      if o.kind == W.SubmissionQueued {
        shown := Tell(key, A.Queued);
      } else if o.kind == W.SubmissionRunning {
        shown := Tell(key, A.Running(o.attemptCount));
      } else if o.kind == W.OtherKind || W.Absent(o.toolCall) || o.descriptor.None? {
        shown := None;
      } else if o.kind == W.ToolStarted {
        shown := Tell(key, A.ToolStart(o.toolCall.value, o.descriptor.value));
      } else {
        shown := Tell(key, A.ToolEnd(o.toolCall.value, o.isError));
      }
    }

    method Finish(key: W.Key)
      requires Apart()
      modifies this
      ensures Apart() && forall k :: k in submissions ==> k in old(submissions) && submissions[k] == old(submissions)[k]
      ensures var was := old(Value());
              Value() == W.World(Without(was.order, key), was.subs - {key}, Added(was.settled, key, W.MAX_SUBMISSIONS))
    {
      ghost var before := Value().subs;
      settledSubmissions := AddBounded(settledSubmissions, key, W.MAX_SUBMISSIONS);
      order := Without(order, key);
      submissions := submissions - {key};
      assert Value().subs == before - {key};
    }

    method RegisterInvocationFact(key: W.Key, id: string, d: A.Descriptor) returns (shown: Option<A.Status>)
      requires Valid()
      modifies this, submissions.Values
      ensures Valid() && W.Reply(Value(), shown) == W.Step(copy, old(Value()), W.Register(key, id, d))
      ensures forall k :: k in submissions ==>
                if k in old(submissions) then submissions[k] == old(submissions)[k] else fresh(submissions[k])
    {
      StepIsGood(copy, Value(), W.Register(key, id, d));
      StepKeepsAllOk(copy, Value(), W.Register(key, id, d));
      if key in settledSubmissions {
        return None;
      }
      TouchIsGood(Value(), key);
      CurrentIsOk(Value(), key);
      shown := Tell(key, A.Told(id, d));
    }

    /** The first loop of `clearInstance`. */
    method ClearLive(instance: string)
      requires Distinct(order) && forall k :: k in submissions <==> k in order
      modifies this`order, this`submissions
      ensures order == W.Keep(old(order), instance)
      ensures forall k :: k in submissions <==> k in order
      ensures forall k :: k in submissions ==> k in old(submissions) && submissions[k] == old(submissions)[k]
    {
      var keys := order;
      AllRemain(keys, instance);
      for i := 0 to |keys|
        invariant order == Remaining(keys, i, instance)
        invariant forall k :: k in submissions <==> k in order
        invariant forall k :: k in submissions ==> k in old(submissions) && submissions[k] == old(submissions)[k]
      {
        OneLessRemains(keys, i, instance);
        if keys[i].instance == instance {
          WithoutMember(order, keys[i]);
          order := Without(order, keys[i]);
          submissions := submissions - {keys[i]};
        }
      }
    }

    /** The second loop of `clearInstance`. */
    method ClearSettled(instance: string)
      requires Distinct(settledSubmissions)
      modifies this`settledSubmissions
      ensures Value() == old(Value()).(settled := W.Keep(old(settledSubmissions), instance))
    {
      var keys := settledSubmissions;
      AllRemain(keys, instance);
      for i := 0 to |keys|
        invariant settledSubmissions == Remaining(keys, i, instance)
      {
        OneLessRemains(keys, i, instance);
        if keys[i].instance == instance {
          settledSubmissions := Without(settledSubmissions, keys[i]);
        }
      }
    }

    /** The first loop, as a change of the whole value. */
    method ClearSubmissions(instance: string)
      requires Distinct(order) && forall k :: k in submissions <==> k in order
      modifies this`order, this`submissions
      ensures Value() == old(Value()).(order := W.Keep(old(order), instance),
                                       subs := W.Elsewhere(old(Value()).subs, instance))
      ensures forall k :: k in submissions ==> k in old(submissions) && submissions[k] == old(submissions)[k]
    {
      ghost var before := Value().subs;
      KeepMember(order, instance);
      ClearLive(instance);
      forall k | k in submissions ensures k in before && submissions[k].Value() == before[k] {
      }
      assert Value().subs == W.Elsewhere(before, instance);
    }

    method ClearInstance(instance: string)
      requires Valid()
      modifies this
      ensures Valid() && Value() == W.Step(copy, old(Value()), W.ClearInstance(instance)).world
      ensures forall k :: k in submissions ==> k in old(submissions) && submissions[k] == old(submissions)[k]
    {
      StepIsGood(copy, Value(), W.ClearInstance(instance));
      StepKeepsAllOk(copy, Value(), W.ClearInstance(instance));
      assert forall k :: k in submissions <==> k in Value().subs;
      ClearSubmissions(instance);
      ClearSettled(instance);
    }
  }

  /** What is left of `keys` when `clearInstance` has looked at the first `i` of them. */
  ghost function Remaining(keys: seq<W.Key>, i: nat, instance: string): seq<W.Key>
    requires i <= |keys|
  {
    W.Keep(keys[..i], instance) + keys[i..]
  }

  lemma AllRemain(keys: seq<W.Key>, instance: string)
    ensures Remaining(keys, 0, instance) == keys && Remaining(keys, |keys|, instance) == W.Keep(keys, instance)
  {
    assert keys[..0] == [] && keys[..|keys|] == keys;
  }

  lemma OneLessRemains(keys: seq<W.Key>, i: nat, instance: string)
    requires Distinct(keys) && i < |keys|
    ensures var now := Remaining(keys, i, instance);
            Remaining(keys, i + 1, instance) == if keys[i].instance == instance then Without(now, keys[i]) else now
  {
    if keys[i].instance == instance {
      WithoutMiddle(keys, i, instance);
    }
    KeepNext(keys, i, instance);
  }

  lemma KeepNext(keys: seq<W.Key>, i: nat, instance: string)
    requires i < |keys|
    ensures var kept := W.Keep(keys[..i], instance);
            W.Keep(keys[..i + 1], instance) + keys[i + 1..]
            == if keys[i].instance == instance then kept + keys[i + 1..] else kept + keys[i..]
  {
    assert keys[..i + 1] == keys[..i] + [keys[i]];
    KeepSnoc(keys[..i], keys[i], instance);
    assert keys[i..] == [keys[i]] + keys[i + 1..];
  }

  lemma {:induction false} KeepSnoc(s: seq<W.Key>, k: W.Key, instance: string)
    ensures W.Keep(s + [k], instance) == if k.instance == instance then W.Keep(s, instance)
            else W.Keep(s, instance) + [k]
  {
    if s == [] {
      assert s + [k] == [k];
    } else {
      assert (s + [k])[1..] == s[1..] + [k];
      KeepSnoc(s[1..], k, instance);
    }
  }

  /** Removing the key at `i` from what is kept of the keys before it and the keys from `i` on. */
  lemma WithoutMiddle(keys: seq<W.Key>, i: nat, instance: string)
    requires Distinct(keys) && i < |keys|
    ensures Without(W.Keep(keys[..i], instance) + keys[i..], keys[i]) == W.Keep(keys[..i], instance) + keys[i + 1..]
  {
    var kept, rest := W.Keep(keys[..i], instance), keys[i..];
    DistinctKeep(keys[..i], instance);
    KeepMember(keys[..i], instance);
    assert Distinct(kept + rest) by {
      forall a, b | 0 <= a < b < |kept + rest| ensures (kept + rest)[a] != (kept + rest)[b] {
        if a < |kept| <= b {
          assert kept[a] in keys[..i];
        }
      }
    }
    WithoutSplits(kept + rest, keys[i], |kept|);
    assert (kept + rest)[..|kept|] == kept && (kept + rest)[|kept| + 1..] == keys[i + 1..];
  }
}
