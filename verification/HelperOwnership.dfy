/**
 What a successful call has seen, and which pods the driver deletes, when at most one call is in flight
 per helper name. Nothing in the code ties a call to the pod it created: it waits for, and deletes, by name.
 */
module HelperOwnership {
  import opened Wrappers
  import opened HelperPods
  import opened HelperPodFacts
  import opened HelperSystem
  import opened HelperLimit

  predicate Unfinished(s: State, c: CallId) {
    c in s.calls && !s.calls[c].pc.Done?
  }

  predicate InFlight(s: State, c: CallId, name: string) {
    Unfinished(s, c) && s.calls[c].desired.name == name
  }

  /** No second call for a name, and no foreign pod under the name of a call in flight. */
  ghost predicate Exclusive(s: State, l: Label) {
    match l
    case Begin(_, desired) => forall c :: !InFlight(s, c, desired.name)
    case EnvCreate(pod) => forall c :: !InFlight(s, c, pod.name)
    case _ => true
  }

  ghost predicate ExclusiveRun(max: int, s: State, labels: seq<Label>) {
    labels == [] ||
    (&& ExclusiveRun(max, s, labels[..|labels| - 1])
     && Run(max, s, labels[..|labels| - 1]).Some?
     && Exclusive(Run(max, s, labels[..|labels| - 1]).value, labels[|labels| - 1])
     && Run(max, s, labels).Some?)
  }

  // ---------------------------------------------------------------- the invariant

  /** What a call at its program counter may rely on. */
  ghost predicate Knows(s: State, call: Call) {
    var name := call.desired.name;
    match call.pc
    case Forcing => name in s.pods ==> s.pods[name].deleting
    case Retiring => name in s.pods ==> Terminal(s.pods[name])
    case Waiting => name in s.pods ==> Derives(call.desired.spec, s.pods[name].spec)
    case Seen(pod) =>
      && Terminal(pod) && pod.name == name && Derives(call.desired.spec, pod.spec)
      && (name in s.pods ==> Terminal(s.pods[name]))
    case Done(Success(pod)) => pod.phase == Succeeded && pod.name == name && Derives(call.desired.spec, pod.spec)
    case _ => true
  }

  ghost predicate OnePerName(s: State) {
    forall c, d | Unfinished(s, c) && Unfinished(s, d) && s.calls[c].desired.name == s.calls[d].desired.name :: c == d
  }

  ghost predicate Owned(s: State) {
    && WellNamed(s.pods)
    && OnePerName(s)
    && forall c | c in s.calls :: Knows(s, s.calls[c])
  }

  /** The pod of a call in flight changes only for the better, unless the call itself creates it. */
  ghost predicate PodKept(before: Store, after: Store, name: string) {
    name in after ==>
      && name in before
      && after[name].spec == before[name].spec
      && (before[name].deleting ==> after[name].deleting)
      && (Terminal(before[name]) ==> Terminal(after[name]))
  }

  lemma PodKeptStep(max: int, s: State, l: Label, c: CallId)
    requires Owned(s) && Exclusive(s, l) && Step(max, s, l).Some?
    requires c in s.calls && !s.calls[c].pc.Done? && !s.calls[c].pc.Admitted?
    ensures PodKept(s.pods, Step(max, s, l).value.pods, s.calls[c].desired.name)
  {
    assert InFlight(s, c, s.calls[c].desired.name);
    if l.Create? {
      assert Unfinished(s, c) && Unfinished(s, l.c);
    }
  }

  /** A call in flight after a step was in flight before it, or the step began it. */
  lemma UnfinishedBefore(max: int, s: State, l: Label, c: CallId)
    requires Step(max, s, l).Some? && Unfinished(Step(max, s, l).value, c)
    ensures || (Unfinished(s, c) && Step(max, s, l).value.calls[c].desired == s.calls[c].desired)
            || (c !in s.calls && l == Begin(c, Step(max, s, l).value.calls[c].desired))
  {
  }

  lemma OnePerNameStep(max: int, s: State, l: Label)
    requires OnePerName(s) && Exclusive(s, l) && Step(max, s, l).Some?
    ensures OnePerName(Step(max, s, l).value)
  {
    var t := Step(max, s, l).value;
    forall c, d | Unfinished(t, c) && Unfinished(t, d) && t.calls[c].desired.name == t.calls[d].desired.name
      ensures c == d
    {
      UnfinishedBefore(max, s, l, c);
      UnfinishedBefore(max, s, l, d);
      assert Unfinished(s, c) ==> InFlight(s, c, t.calls[d].desired.name);
      assert Unfinished(s, d) ==> InFlight(s, d, t.calls[c].desired.name);
    }
  }

  /** Calls that do not move keep what they know. */
  lemma KnowsKept(max: int, s: State, l: Label, c: CallId)
    requires Owned(s) && Exclusive(s, l) && Step(max, s, l).Some?
    requires c in s.calls && c in Step(max, s, l).value.calls && Step(max, s, l).value.calls[c] == s.calls[c]
    ensures Knows(Step(max, s, l).value, s.calls[c])
  {
    assert Knows(s, s.calls[c]);
    if !s.calls[c].pc.Done? && !s.calls[c].pc.Admitted? {
      PodKeptStep(max, s, l, c);
    }
  }

  /** useExistingHelper leaves the call with a true view of the pod it was shown. */
  lemma KnowsGet(s: State, c: CallId, fails: bool)
    ensures StepGet(s, c, fails).Some? ==>
              Knows(StepGet(s, c, fails).value, StepGet(s, c, fails).value.calls[c])
    ensures StepReget(s, c, fails).Some? ==>
              Knows(StepReget(s, c, fails).value, StepReget(s, c, fails).value.calls[c])
  {
  }

  lemma KnowsCreate(s: State, c: CallId, fate: CreateFate)
    requires StepCreate(s, c, fate).Some?
    ensures var t := StepCreate(s, c, fate).value; Knows(t, t.calls[c])
  {
    StoredDerives(s.calls[c].desired);
  }

  lemma KnowsCleanup(s: State, c: CallId, del: DeleteFate)
    requires StepCleanup(s, c, del).Some? && Knows(s, s.calls[c])
    ensures var t := StepCleanup(s, c, del).value; Knows(t, t.calls[c])
  {
  }

  lemma KnowsPoll(s: State, c: CallId, fails: bool)
    requires StepPoll(s, c, fails).Some? && Knows(s, s.calls[c])
    requires WellNamed(s.pods)
    ensures var t := StepPoll(s, c, fails).value; Knows(t, t.calls[c])
  {
  }

  /** The labels under the lock, and those that give up, leave a call knowing nothing it would have to prove. */
  lemma KnowsOther(max: int, s: State, l: Label, c: CallId)
    requires Owner(l) == Some(c) && c in s.calls && Step(max, s, l).Some? && c in Step(max, s, l).value.calls
    requires !l.Get? && !l.Reget? && !l.Create? && !l.Poll? && !l.Cleanup?
    ensures Knows(Step(max, s, l).value, Step(max, s, l).value.calls[c])
  {
  }

  /** A call that moves knows what it must from its own step. */
  lemma KnowsMoved(max: int, s: State, l: Label, c: CallId)
    requires WellNamed(s.pods) && c in s.calls && Knows(s, s.calls[c])
    requires Owner(l) == Some(c) && Step(max, s, l).Some? && c in Step(max, s, l).value.calls
    ensures Knows(Step(max, s, l).value, Step(max, s, l).value.calls[c])
  {
    match l
    case Get(_, fails) => KnowsGet(s, c, fails);
    case Reget(_, fails) => KnowsGet(s, c, fails);
    case Create(_, fate) => KnowsCreate(s, c, fate);
    case Poll(_, fails) => KnowsPoll(s, c, fails);
    case Cleanup(_, del) => KnowsCleanup(s, c, del);
    case _ => KnowsOther(max, s, l, c);
  }

  lemma KnowsStep(max: int, s: State, l: Label, c: CallId)
    requires Owned(s) && Exclusive(s, l) && Step(max, s, l).Some?
    requires c in Step(max, s, l).value.calls
    ensures Knows(Step(max, s, l).value, Step(max, s, l).value.calls[c])
  {
    var t := Step(max, s, l).value;
    if c in s.calls {
      assert Knows(s, s.calls[c]);
      if Owner(l) == Some(c) {
        KnowsMoved(max, s, l, c);
      } else {
        if !l.Restart? { OthersKeepCall(max, s, l, c); }
        KnowsKept(max, s, l, c);
      }
    }
  }

  lemma OwnedStep(max: int, s: State, l: Label)
    requires Owned(s) && Exclusive(s, l) && Step(max, s, l).Some?
    ensures Owned(Step(max, s, l).value)
  {
    WellNamedStep(max, s, l);
    OnePerNameStep(max, s, l);
    forall c | c in Step(max, s, l).value.calls
      ensures Knows(Step(max, s, l).value, Step(max, s, l).value.calls[c])
    {
      KnowsStep(max, s, l, c);
    }
  }

  ghost predicate Fresh(s: State) {
    s.calls == map[] && s.lock == None && WellNamed(s.pods)
  }

  lemma {:induction false} OwnedRun(max: int, s: State, labels: seq<Label>)
    requires Fresh(s) && ExclusiveRun(max, s, labels)
    ensures Run(max, s, labels).Some? && Owned(Run(max, s, labels).value)
  {
    if labels != [] {
      OwnedRun(max, s, labels[..|labels| - 1]);
      OwnedStep(max, Run(max, s, labels[..|labels| - 1]).value, labels[|labels| - 1]);
    }
  }

  // ---------------------------------------------------------------- over whole runs

  /** Success was seen: a pod of the call's name, finished successfully, agreeing with every field the caller set. */
  lemma SuccessSawMatchingPod(max: int, s: State, labels: seq<Label>, c: CallId)
    requires Fresh(s) && ExclusiveRun(max, s, labels)
    requires var t := Run(max, s, labels).value; c in t.calls && t.calls[c].pc.Done? && t.calls[c].pc.ret.Success?
    ensures var call := Run(max, s, labels).value.calls[c];
            && call.pc.ret.seen.phase == Succeeded
            && call.pc.ret.seen.name == call.desired.name
            && Derives(call.desired.spec, call.pc.ret.seen.spec)
  {
    OwnedRun(max, s, labels);
    assert Knows(Run(max, s, labels).value, Run(max, s, labels).value.calls[c]);
  }

  /** The pod that a label of the driver asks the API server to delete. */
  function Deletes(s: State, l: Label): Option<string> {
    match l
    case ForceDelete(c, _) => if At(s, c, Forcing) then Some(s.calls[c].desired.name) else None
    case Retire(c, _) => if At(s, c, Retiring) then Some(s.calls[c].desired.name) else None
    case Cleanup(c, _) => if c in s.calls && s.calls[c].pc.Seen? then Some(s.calls[c].desired.name) else None
    case _ => None
  }

  /** The driver only ever deletes pods that have finished or were already terminating. */
  lemma OnlyFinishedPodsDeleted(max: int, s: State, labels: seq<Label>, l: Label)
    requires Fresh(s) && ExclusiveRun(max, s, labels)
    requires Deletes(Run(max, s, labels).value, l).Some?
    ensures var t := Run(max, s, labels).value;
            var name := Deletes(t, l).value;
            name in t.pods ==> Terminal(t.pods[name]) || t.pods[name].deleting
  {
    OwnedRun(max, s, labels);
    var t := Run(max, s, labels).value;
    assert Knows(t, t.calls[l.c]);
  }

  // ---------------------------------------------------------------- why one call per name matters

  lemma Overwritten(zero: Call, a: Call, b: Call)
    ensures map[0 := a][0 := b] == map[0 := b]
    ensures map[0 := zero, 1 := a][1 := b] == map[0 := zero, 1 := b]
  {
  }

  lemma Extend(max: int, s: State, labels: seq<Label>, l: Label, t: State) returns (longer: seq<Label>)
    requires Run(max, s, labels).Some? && Step(max, Run(max, s, labels).value, l) == Some(t)
    ensures Run(max, s, longer) == Some(t)
  {
    RunExtends(max, s, labels, l);
    longer := labels + [l];
  }

  /** Call 0 joins a finished pod and sees it; then the pod is removed. */
  lemma FirstCallSees(max: int, s: State, pod: Pod, desired: Pod) returns (labels: seq<Label>)
    requires s == State(map[pod.name := pod], None, map[])
    requires Terminal(pod) && !pod.deleting && Derives(desired.spec, pod.spec) && desired.name == pod.name
    ensures Run(max, s, labels) == Some(State(map[], None, map[0 := Call(desired, Seen(pod))]))
  {
    labels := [];
    labels := Extend(max, s, labels, Begin(0, desired), State(s.pods, None, map[0 := Call(desired, Start)]));
    Overwritten(Call(desired, Start), Call(desired, Start), Call(desired, Locked));
    labels := Extend(max, s, labels, Acquire(0), State(s.pods, Some(0), map[0 := Call(desired, Locked)]));
    Overwritten(Call(desired, Start), Call(desired, Locked), Call(desired, Waiting));
    labels := Extend(max, s, labels, Get(0, false), State(s.pods, None, map[0 := Call(desired, Waiting)]));
    Overwritten(Call(desired, Start), Call(desired, Waiting), Call(desired, Seen(pod)));
    labels := Extend(max, s, labels, Poll(0, false), State(s.pods, None, map[0 := Call(desired, Seen(pod))]));
    assert s.pods - {pod.name} == map[];
    labels := Extend(max, s, labels, EnvRemove(pod.name), State(map[], None, map[0 := Call(desired, Seen(pod))]));
  }

  lemma EmptyListUnderLimit(desired: Pod, max: int)
    requires max > 0
    ensures UnderLimit(desired, [], max)
  {
    forall vgName ensures Counted([], desired, vgName) == {} { }
  }

  lemma CountAdmits(max: int, zero: Call, desired: Pod)
    requires max > 0 && Groups(desired) != {}
    ensures Step(max, State(map[], Some(1), map[0 := zero, 1 := Call(desired, Listed([]))]), Count(1))
         == Some(State(map[], Some(1), map[0 := zero, 1 := Call(desired, Admitted)]))
  {
    Overwritten(zero, Call(desired, Listed([])), Call(desired, Admitted));
    EmptyListUnderLimit(desired, max);
  }

  /** Call 1 finds the name free and is admitted. */
  lemma SecondCallAdmitted(max: int, s: State, before: seq<Label>, zero: Call, desired: Pod)
    returns (labels: seq<Label>)
    requires max > 0 && Groups(desired) != {}
    requires Run(max, s, before) == Some(State(map[], None, map[0 := zero]))
    ensures Run(max, s, labels) == Some(State(map[], Some(1), map[0 := zero, 1 := Call(desired, Admitted)]))
  {
    labels := Extend(max, s, before, Begin(1, desired),
                     State(map[], None, map[0 := zero, 1 := Call(desired, Start)]));
    Overwritten(zero, Call(desired, Start), Call(desired, Locked));
    labels := Extend(max, s, labels, Acquire(1), State(map[], Some(1), map[0 := zero, 1 := Call(desired, Locked)]));
    Overwritten(zero, Call(desired, Locked), Call(desired, Missing));
    labels := Extend(max, s, labels, Get(1, false), State(map[], Some(1), map[0 := zero, 1 := Call(desired, Missing)]));
    Overwritten(zero, Call(desired, Missing), Call(desired, Listed([])));
    labels := Extend(max, s, labels, List(1, false, []),
                     State(map[], Some(1), map[0 := zero, 1 := Call(desired, Listed([]))]));
    CountAdmits(max, zero, desired);
    labels := Extend(max, s, labels, Count(1), State(map[], Some(1), map[0 := zero, 1 := Call(desired, Admitted)]));
  }

  /** Call 1 creates its own pod, and the pod starts running. */
  lemma SecondCallCreates(max: int, s: State, before: seq<Label>, zero: Call, desired: Pod)
    returns (labels: seq<Label>)
    requires Run(max, s, before) == Some(State(map[], Some(1), map[0 := zero, 1 := Call(desired, Admitted)]))
    ensures Run(max, s, labels) == Some(State(map[desired.name := Stored(desired).(phase := Running)], None,
                                              map[0 := zero, 1 := Call(desired, Waiting)]))
  {
    Overwritten(zero, Call(desired, Admitted), Call(desired, Waiting));
    labels := Extend(max, s, before, Create(1, CreateReplied),
                     State(map[desired.name := Stored(desired)], None, map[0 := zero, 1 := Call(desired, Waiting)]));
    assert map[desired.name := Stored(desired)][desired.name := Stored(desired).(phase := Running)]
        == map[desired.name := Stored(desired).(phase := Running)];
    labels := Extend(max, s, labels, EnvPhase(desired.name, Running),
                     State(map[desired.name := Stored(desired).(phase := Running)], None,
                           map[0 := zero, 1 := Call(desired, Waiting)]));
  }

  /** Two calls in flight for one name, and the first one's cleanup deletes the second one's running helper. */
  lemma SecondCallLosesRunningPod(pod: Pod, first: Pod, second: Pod) returns (s: State, labels: seq<Label>)
    requires Terminal(pod) && !pod.deleting && Derives(first.spec, pod.spec)
    requires pod.name == first.name == second.name && Groups(second) != {}
    ensures Fresh(s) && Run(1, s, labels).Some?
    ensures var t := Run(1, s, labels).value;
            && Deletes(t, Cleanup(0, DeleteReplied(true))) == Some(second.name)
            && second.name in t.pods && t.pods[second.name].phase == Running && !t.pods[second.name].deleting
  {
    s := State(map[pod.name := pod], None, map[]);
    labels := FirstCallSees(1, s, pod, first);
    labels := SecondCallAdmitted(1, s, labels, Call(first, Seen(pod)), second);
    labels := SecondCallCreates(1, s, labels, Call(first, Seen(pod)), second);
  }
}
