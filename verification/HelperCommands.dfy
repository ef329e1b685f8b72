/**
 From matching pods to the command that ran: when every helper pod comes from the builders, a call that
 returned success saw a pod finish successfully whose command line was its own, on its own node.
 */
module HelperCommands {
  import opened Wrappers
  import opened Text
  import opened HelperPods
  import opened HelperPodFacts
  import opened HelperSystem
  import opened HelperLimit
  import opened HelperOwnership

  /** The pod of a request, as runHelper receives it. */
  ghost predicate RequestPod(pod: Pod, show: int -> string) {
    exists q: Params :: HelperArgs(q).Some? && pod == NewHelperPod(q, HelperArgs(q).value, show)
  }

  /** A stored pod that the request q created. */
  ghost predicate CreatedBy(pod: Pod, q: Params, show: int -> string) {
    && HelperArgs(q).Some?
    && pod.name == PodName(q.action, q.name)
    && pod.annotations == NewHelperPod(q, HelperArgs(q).value, show).annotations
    && pod.labels == NewHelperPod(q, HelperArgs(q).value, show).labels
    && pod.spec == Stored(NewHelperPod(q, HelperArgs(q).value, show)).spec
  }

  ghost predicate StoredHelper(pod: Pod, show: int -> string) {
    exists q: Params :: CreatedBy(pod, q, show)
  }

  ghost predicate StoreBuilt(pods: Store, show: int -> string) {
    forall n | n in pods && IsHelper(pods[n]) :: StoredHelper(pods[n], show)
  }

  ghost predicate CallBuilt(call: Call, show: int -> string) {
    && RequestPod(call.desired, show)
    && match call.pc
       case Seen(pod) => StoredHelper(pod, show)
       case Done(Success(pod)) => StoredHelper(pod, show)
       case _ => true
  }

  ghost predicate Requested(s: State, show: int -> string) {
    StoreBuilt(s.pods, show) && forall c | c in s.calls :: RequestPod(s.calls[c].desired, show)
  }

  ghost predicate Built(s: State, show: int -> string) {
    StoreBuilt(s.pods, show) && forall c | c in s.calls :: CallBuilt(s.calls[c], show)
  }

  ghost predicate Requests(labels: seq<Label>, show: int -> string) {
    forall i | 0 <= i < |labels| && labels[i].Begin? :: RequestPod(labels[i].desired, show)
  }

  /** A pod that passes the reuse test for a request runs the provisioner, so it is recognised as a helper. */
  lemma DerivedIsHelper(p: Params, pod: Pod, show: int -> string)
    requires HelperArgs(p).Some? && Derives(NewHelperPod(p, HelperArgs(p).value, show).spec, pod.spec)
    ensures IsHelper(pod)
  {
    var wanted := NewHelperPod(p, HelperArgs(p).value, show).spec.containers[0];
    var container := pod.spec.containers[0];
    assert DerivesContainer(NewHelperPod(p, HelperArgs(p).value, show).spec.containers[0], container);
    assert DerivesString(wanted.command[0], container.command[0]);
    SplitPart(PROVISIONER, '/');
    assert RunsProvisioner(container);
  }

  lemma StoredIsBuilt(desired: Pod, show: int -> string)
    requires RequestPod(desired, show)
    ensures StoredHelper(Stored(desired), show)
  {
    var q: Params :| HelperArgs(q).Some? && desired == NewHelperPod(q, HelperArgs(q).value, show);
    assert CreatedBy(Stored(desired), q, show);
  }

  lemma StoreBuiltStep(max: int, s: State, l: Label, show: int -> string)
    requires Requested(s, show) && Step(max, s, l).Some?
    ensures StoreBuilt(Step(max, s, l).value.pods, show)
  {
    var t := Step(max, s, l).value;
    forall n | n in t.pods && IsHelper(t.pods[n]) ensures StoredHelper(t.pods[n], show) {
      if Creates(s, l) && n == s.calls[l.c].desired.name {
        StoredIsBuilt(s.calls[l.c].desired, show);
      } else {
        SamePodStep(max, s, l, n);
        var q: Params :| CreatedBy(s.pods[n], q, show);
        assert CreatedBy(t.pods[n], q, show);
      }
    }
  }

  /** A helper pod is the same as before up to its phase and its being deleted. */
  predicate SamePod(before: Store, after: Store, n: string)
    requires n in after
  {
    && n in before && IsHelper(before[n])
    && after[n] == before[n].(phase := after[n].phase, deleting := after[n].deleting)
  }

  lemma SamePodEnvironment(s: State, l: Label, n: string)
    requires StepEnvironment(s, l).Some? && n in StepEnvironment(s, l).value.pods
    requires IsHelper(StepEnvironment(s, l).value.pods[n])
    ensures SamePod(s.pods, StepEnvironment(s, l).value.pods, n)
  {
  }

  lemma SamePodStep(max: int, s: State, l: Label, n: string)
    requires Step(max, s, l).Some? && n in Step(max, s, l).value.pods && IsHelper(Step(max, s, l).value.pods[n])
    requires !(Creates(s, l) && n == s.calls[l.c].desired.name)
    ensures SamePod(s.pods, Step(max, s, l).value.pods, n)
  {
    if Owner(l).None? {
      SamePodEnvironment(s, l, n);
    } else if !l.ForceDelete? && !l.Retire? && !l.Cleanup? && !Creates(s, l) {
      StoreUntouched(max, s, l);
    }
  }

  lemma SeenIsBuilt(s: State, c: CallId, show: int -> string)
    requires Built(s, show) && Owned(s) && c in s.calls && s.calls[c].pc.Waiting? && s.calls[c].desired.name in s.pods
    ensures StoredHelper(s.pods[s.calls[c].desired.name], show)
  {
    assert Knows(s, s.calls[c]) && CallBuilt(s.calls[c], show);
    var p: Params :| HelperArgs(p).Some? && s.calls[c].desired == NewHelperPod(p, HelperArgs(p).value, show);
    DerivedIsHelper(p, s.pods[s.calls[c].desired.name], show);
  }

  /** A step leaves what a call has seen alone, or is the poll or the cleanup that passes it on. */
  lemma SeenBefore(max: int, s: State, l: Label, c: CallId)
    requires Step(max, s, l).Some? && c in s.calls && c in Step(max, s, l).value.calls
    ensures var d, e := s.calls[c], Step(max, s, l).value.calls[c];
            && e.desired == d.desired
            && (e.pc.Seen? ==> e == d || (d.pc.Waiting? && d.desired.name in s.pods
                                          && e.pc.pod == s.pods[d.desired.name]))
            && (e.pc.Done? && e.pc.ret.Success? ==> e == d || (d.pc.Seen? && e.pc.ret.seen == d.pc.pod))
  {
    if Owner(l) != Some(c) && !l.Restart? { OthersKeepCall(max, s, l, c); }
  }

  lemma CallBuiltStep(s: State, t: State, c: CallId, show: int -> string)
    requires Built(s, show) && Owned(s) && c in s.calls && c in t.calls
    requires var d, e := s.calls[c], t.calls[c];
             && e.desired == d.desired
             && (e.pc.Seen? ==> e == d || (d.pc.Waiting? && d.desired.name in s.pods
                                           && e.pc.pod == s.pods[d.desired.name]))
             && (e.pc.Done? && e.pc.ret.Success? ==> e == d || (d.pc.Seen? && e.pc.ret.seen == d.pc.pod))
    ensures CallBuilt(t.calls[c], show)
  {
    assert CallBuilt(s.calls[c], show);
    if t.calls[c].pc.Seen? && t.calls[c] != s.calls[c] {
      SeenIsBuilt(s, c, show);
    }
  }

  /** A call that a step introduces was begun by it. */
  lemma NewCall(max: int, s: State, l: Label, c: CallId)
    requires Step(max, s, l).Some? && c !in s.calls && c in Step(max, s, l).value.calls
    ensures l.Begin? && Step(max, s, l).value.calls[c] == Call(l.desired, Start)
  {
  }

  lemma BuiltStep(max: int, s: State, l: Label, show: int -> string)
    requires Built(s, show) && Owned(s) && Step(max, s, l).Some?
    requires l.Begin? ==> RequestPod(l.desired, show)
    ensures Built(Step(max, s, l).value, show)
  {
    StoreBuiltStep(max, s, l, show);
    forall c | c in Step(max, s, l).value.calls ensures CallBuilt(Step(max, s, l).value.calls[c], show) {
      if c in s.calls {
        SeenBefore(max, s, l, c);
        CallBuiltStep(s, Step(max, s, l).value, c, show);
      } else {
        NewCall(max, s, l, c);
      }
    }
  }

  lemma {:induction false} BuiltRun(max: int, s: State, labels: seq<Label>, show: int -> string)
    requires Fresh(s) && StoreBuilt(s.pods, show) && ExclusiveRun(max, s, labels) && Requests(labels, show)
    ensures Run(max, s, labels).Some? && Built(Run(max, s, labels).value, show)
  {
    if labels != [] {
      var before := labels[..|labels| - 1];
      assert forall i | 0 <= i < |before| :: before[i] == labels[i];
      BuiltRun(max, s, before, show);
      OwnedRun(max, s, before);
      BuiltStep(max, Run(max, s, before).value, labels[|labels| - 1], show);
    }
  }

  // ---------------------------------------------------------------- the limit in terms of requests

  lemma RequestedStep(max: int, s: State, l: Label, show: int -> string)
    requires Requested(s, show) && Step(max, s, l).Some?
    requires l.Begin? ==> RequestPod(l.desired, show)
    ensures Requested(Step(max, s, l).value, show)
  {
    StoreBuiltStep(max, s, l, show);
    forall c | c in Step(max, s, l).value.calls ensures RequestPod(Step(max, s, l).value.calls[c].desired, show) {
      if c in s.calls {
        SeenBefore(max, s, l, c);
      } else {
        NewCall(max, s, l, c);
      }
    }
  }

  lemma {:induction false} RequestedRun(max: int, s: State, labels: seq<Label>, show: int -> string)
    requires s.calls == map[] && StoreBuilt(s.pods, show) && Run(max, s, labels).Some? && Requests(labels, show)
    ensures Requested(Run(max, s, labels).value, show)
  {
    if labels != [] {
      var before := labels[..|labels| - 1];
      assert forall i | 0 <= i < |before| :: before[i] == labels[i];
      RequestedRun(max, s, before, show);
      RequestedStep(max, Run(max, s, before).value, labels[|labels| - 1], show);
    }
  }

  /** The unfinished helpers on a node whose request touches a group, as its own or as its source's. */
  ghost function Touching(pods: Store, node: string, vgName: string, show: int -> string): set<string> {
    set n | n in pods && IsHelper(pods[n]) && !Terminal(pods[n])
            && (exists q: Params ::
                  CreatedBy(pods[n], q, show) && q.nodeName == node && vgName in RequestedGroups(q))
  }

  lemma CreatedGroups(pod: Pod, q: Params, show: int -> string)
    requires CreatedBy(pod, q, show)
    ensures RequestedGroups(q) - {""} <= Groups(pod)
    ensures pod.spec.nodeName == q.nodeName
  {
    GroupsCovered(q, show);
    assert Groups(pod) == Groups(NewHelperPod(q, HelperArgs(q).value, show));
  }

  lemma TouchingAreUsers(pods: Store, node: string, vgName: string, show: int -> string)
    requires vgName != ""
    ensures Touching(pods, node, vgName, show) <= Users(pods, node, vgName)
  {
    forall n | n in Touching(pods, node, vgName, show) ensures n in Users(pods, node, vgName) {
      var q: Params :| CreatedBy(pods[n], q, show) && q.nodeName == node && vgName in RequestedGroups(q);
      CreatedGroups(pods[n], q, show);
    }
  }

  /**
   The limit read from the requests, not from the pods' text: on every node, at most MaxActive unfinished
   helpers touch a group, a clone touching its source's group as well; and every one is some request's.
   */
  lemma RequestsBounded(max: int, s: State, labels: seq<Label>, show: int -> string, node: string, vgName: string)
    requires Initial(max, s) && StoreBuilt(s.pods, show) && Run(max, s, labels).Some? && Requests(labels, show)
    requires vgName != ""
    ensures |Touching(Run(max, s, labels).value.pods, node, vgName, show)| <= if max > 0 then max else 0
    ensures StoreBuilt(Run(max, s, labels).value.pods, show)
  {
    var pods := Run(max, s, labels).value.pods;
    TouchingAreUsers(pods, node, vgName, show);
    SubsetSize(Touching(pods, node, vgName, show), Users(pods, node, vgName));
    ActiveHelpersBounded(max, s, labels, node, vgName);
    RequestedRun(max, s, labels, show);
  }

  lemma SameTimeoutFlags(p: Params, q: Params, show: int -> string)
    requires Reuses(p, q, show)
    ensures TimeoutFlags(p.config, show) == TimeoutFlags(q.config, show)
  {
    var a, b := TimeoutFlags(p.config, show), TimeoutFlags(q.config, show);
    var c := NewHelperPod(p, HelperArgs(p).value, show).spec.containers[0];
    var d := NewHelperPod(q, HelperArgs(q).value, show).spec.containers[0];
    assert DerivesContainer(NewHelperPod(p, HelperArgs(p).value, show).spec.containers[0], d);
    assert DerivesString(c.args[0], d.args[0]) && DerivesString(c.args[1], d.args[1]);
    assert c.args[0] == a[0] && d.args[0] == b[0] && c.args[1] == a[1] && d.args[1] == b[1];
    assert a == b;
  }

  /**
   A call that returned success saw a pod succeed on its own node with its own timeouts and, except in the place of an
   empty word of its own, its own arguments. A request without an empty word saw exactly its own command line.
   */
  lemma SuccessRanTheCommand(max: int, s: State, labels: seq<Label>, show: int -> string, c: CallId, p: Params)
    requires Fresh(s) && StoreBuilt(s.pods, show) && ExclusiveRun(max, s, labels) && Requests(labels, show)
    requires HelperArgs(p).Some?
    requires var t := Run(max, s, labels).value;
             && c in t.calls && t.calls[c].desired == NewHelperPod(p, HelperArgs(p).value, show)
             && t.calls[c].pc.Done? && t.calls[c].pc.ret.Success?
    ensures var seen := Run(max, s, labels).value.calls[c].pc.ret.seen;
            && seen.phase == Succeeded
            && seen.spec.nodeName == p.nodeName
            && |seen.spec.containers| == 1
            && exists ran ::
                 && seen.spec.containers[0].args == TimeoutFlags(p.config, show) + ran
                 && |ran| == |HelperArgs(p).value| && DerivesStrings(HelperArgs(p).value, ran)
                 && ("" !in HelperArgs(p).value ==> ran == HelperArgs(p).value)
  {
    SuccessSawMatchingPod(max, s, labels, c);
    BuiltRun(max, s, labels, show);
    var call := Run(max, s, labels).value.calls[c];
    assert CallBuilt(call, show);
    var q: Params :| CreatedBy(call.pc.ret.seen, q, show);
    ReuseRunsSameCommand(p, q, show);
    SameTimeoutFlags(p, q, show);
    assert call.pc.ret.seen.spec.containers[0].args == TimeoutFlags(p.config, show) + HelperArgs(q).value;
  }

  /** A call for a validated request, that returned success, saw exactly its own command line run to success. */
  lemma ValidatedRanItsCommand(max: int, s: State, labels: seq<Label>, show: int -> string, c: CallId, p: Params)
    requires Fresh(s) && StoreBuilt(s.pods, show) && ExclusiveRun(max, s, labels) && Requests(labels, show)
    requires Validated(p)
    requires var t := Run(max, s, labels).value;
             && c in t.calls && HelperArgs(p).Some? && t.calls[c].desired == NewHelperPod(p, HelperArgs(p).value, show)
             && t.calls[c].pc.Done? && t.calls[c].pc.ret.Success?
    ensures var seen := Run(max, s, labels).value.calls[c].pc.ret.seen;
            && seen.phase == Succeeded
            && seen.spec.nodeName == p.nodeName
            && |seen.spec.containers| == 1
            && seen.spec.containers[0].args == TimeoutFlags(p.config, show) + HelperArgs(p).value
  {
    ValidatedReusesOnlyItself(p, p, show);
    SuccessRanTheCommand(max, s, labels, show, c, p);
  }
}
