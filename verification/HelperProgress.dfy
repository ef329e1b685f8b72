/**
 A stale pod cannot block a request forever. For one helper name and one wanted spec, every refusal that
 deletes a pod is paid for by a potential that starts at two and that only outside deletions can refill.
 */
module HelperProgress {
  import opened Wrappers
  import opened HelperPods
  import opened HelperPodFacts
  import opened HelperSystem
  import opened HelperOwnership

  /** Deletions still needed before the name is free or joinable: a mismatch 2, a terminating pod 1. */
  function Rank(pods: Store, name: string, wanted: PodSpec): nat {
    if name !in pods then 0
    else if pods[name].deleting then 1
    else if Derives(wanted, pods[name].spec) then 0
    else 2
  }

  ghost predicate SomeCallAt(s: State, name: string, pc: PC) {
    exists c :: At(s, c, pc) && s.calls[c].desired.name == name
  }

  /** A call that has already decided to delete will refuse whatever becomes of the pod meanwhile. */
  ghost function Owed(s: State, name: string): nat {
    if SomeCallAt(s, name, Retiring) then 2 else if SomeCallAt(s, name, Forcing) then 1 else 0
  }

  ghost function Potential(s: State, name: string, wanted: PodSpec): nat {
    var rank, owed := Rank(s.pods, name, wanted), Owed(s, name);
    if rank >= owed then rank else owed
  }

  /** One for a call of that name that is refused after its deletion took effect. */
  function Refusal(s: State, l: Label, name: string): nat {
    if (l.ForceDelete? || l.Retire?) && !l.del.DeleteFailed? && l.c in s.calls && s.calls[l.c].desired.name == name
    then 1 else 0
  }

  /** What refills the potential: someone else deletes the pod gracefully, takes its name, or a cleanup lingers. */
  function Credit(s: State, l: Label, name: string): nat {
    match l
    case EnvTerminate(n) => if n == name then 1 else 0
    case EnvCreate(pod) => if pod.name == name then 2 else 0
    case Cleanup(c, del) =>
      if c in s.calls && s.calls[c].desired.name == name && !del.DeleteFailed? && !del.removed then 1 else 0
    case _ => 0
  }

  ghost function Refusals(max: int, s: State, labels: seq<Label>, name: string): nat {
    if labels == [] || Run(max, s, labels[..|labels| - 1]).None? then 0
    else
      var before := labels[..|labels| - 1];
      Refusals(max, s, before, name) + Refusal(Run(max, s, before).value, labels[|labels| - 1], name)
  }

  ghost function Credits(max: int, s: State, labels: seq<Label>, name: string): nat {
    if labels == [] || Run(max, s, labels[..|labels| - 1]).None? then 0
    else
      var before := labels[..|labels| - 1];
      Credits(max, s, before, name) + Credit(Run(max, s, before).value, labels[|labels| - 1], name)
  }

  /** Every call for the name wants the same spec: the retries of one request. */
  ghost predicate SameRequest(s: State, name: string, wanted: PodSpec) {
    forall c | c in s.calls && s.calls[c].desired.name == name :: s.calls[c].desired.spec == wanted
  }

  ghost predicate RepeatsOnly(labels: seq<Label>, name: string, wanted: PodSpec) {
    forall i | 0 <= i < |labels| && labels[i].Begin? && labels[i].desired.name == name ::
      labels[i].desired.spec == wanted
  }

  lemma DesiredBefore(max: int, s: State, l: Label, c: CallId)
    requires Step(max, s, l).Some? && c in Step(max, s, l).value.calls
    ensures if c in s.calls then Step(max, s, l).value.calls[c].desired == s.calls[c].desired
            else l.Begin? && Step(max, s, l).value.calls[c].desired == l.desired
  {
  }

  lemma SameRequestStep(max: int, s: State, l: Label, name: string, wanted: PodSpec)
    requires SameRequest(s, name, wanted) && Step(max, s, l).Some?
    requires l.Begin? && l.desired.name == name ==> l.desired.spec == wanted
    ensures SameRequest(Step(max, s, l).value, name, wanted)
  {
    var t := Step(max, s, l).value;
    forall c | c in t.calls && t.calls[c].desired.name == name ensures t.calls[c].desired.spec == wanted {
      DesiredBefore(max, s, l, c);
    }
  }

  // ---------------------------------------------------------------- one step

  lemma RankStep(max: int, s: State, l: Label, name: string, wanted: PodSpec)
    requires SameRequest(s, name, wanted) && Step(max, s, l).Some? && Refusal(s, l, name) == 0
    ensures Rank(Step(max, s, l).value.pods, name, wanted) <= Rank(s.pods, name, wanted) + Credit(s, l, name)
  {
    if l.Create? && l.c in s.calls {
      StoredDerives(s.calls[l.c].desired);
      assert s.calls[l.c].desired.name == name ==> s.calls[l.c].desired.spec == wanted;
    }
  }

  /** A call that newly decides to delete has just been shown the pod that makes it do so. */
  lemma OwedStep(max: int, s: State, l: Label, name: string, wanted: PodSpec)
    requires SameRequest(s, name, wanted) && Step(max, s, l).Some?
    ensures Owed(Step(max, s, l).value, name) <= Potential(s, name, wanted)
  {
    var t := Step(max, s, l).value;
    if SomeCallAt(t, name, Retiring) {
      var c :| At(t, c, Retiring) && t.calls[c].desired.name == name;
      DecidedHere(max, s, l, c, Retiring);
    } else if SomeCallAt(t, name, Forcing) {
      var c :| At(t, c, Forcing) && t.calls[c].desired.name == name;
      DecidedHere(max, s, l, c, Forcing);
    }
  }

  lemma DecidedHere(max: int, s: State, l: Label, c: CallId, pc: PC)
    requires Step(max, s, l).Some? && At(Step(max, s, l).value, c, pc) && (pc.Retiring? || pc.Forcing?)
    ensures c in s.calls && Step(max, s, l).value.calls[c].desired == s.calls[c].desired
    ensures || At(s, c, pc)
            || (s.calls[c].desired.name in s.pods
                && UseExisting(s.calls[c].desired, s.pods[s.calls[c].desired.name]) == pc)
  {
    if c in s.calls && Owner(l) != Some(c) && !l.Restart? { OthersKeepCall(max, s, l, c); }
  }

  /** A refusal leaves no other call of the name about to delete, and the pod strictly closer to absent. */
  lemma RefusalStep(max: int, s: State, l: Label, name: string, wanted: PodSpec)
    requires Owned(s) && SameRequest(s, name, wanted) && Step(max, s, l).Some? && Refusal(s, l, name) == 1
    ensures Potential(Step(max, s, l).value, name, wanted) + 1 <= Potential(s, name, wanted)
  {
    var t := Step(max, s, l).value;
    assert t.calls[l.c].pc.Done?;
    forall c, pc: PC | At(t, c, pc) && t.calls[c].desired.name == name ensures !pc.Retiring? && !pc.Forcing? {
      if c != l.c && !pc.Done? {
        assert Unfinished(s, c) && Unfinished(s, l.c);
      }
    }
    assert Owed(t, name) == 0;
    assert Knows(s, s.calls[l.c]);
    if l.Retire? {
      assert At(s, l.c, Retiring);
    } else {
      assert At(s, l.c, Forcing);
    }
  }

  lemma PotentialStep(max: int, s: State, l: Label, name: string, wanted: PodSpec)
    requires Owned(s) && SameRequest(s, name, wanted) && Step(max, s, l).Some?
    ensures Potential(Step(max, s, l).value, name, wanted) + Refusal(s, l, name)
         <= Potential(s, name, wanted) + Credit(s, l, name)
  {
    if Refusal(s, l, name) == 1 {
      RefusalStep(max, s, l, name, wanted);
    } else {
      RankStep(max, s, l, name, wanted);
      OwedStep(max, s, l, name, wanted);
    }
  }

  // ---------------------------------------------------------------- over whole runs

  lemma {:induction false} RefusalsPaid(max: int, s: State, labels: seq<Label>, name: string, wanted: PodSpec)
    requires Fresh(s) && ExclusiveRun(max, s, labels) && RepeatsOnly(labels, name, wanted)
    ensures Run(max, s, labels).Some? && SameRequest(Run(max, s, labels).value, name, wanted)
    ensures Potential(Run(max, s, labels).value, name, wanted) + Refusals(max, s, labels, name)
         <= Potential(s, name, wanted) + Credits(max, s, labels, name)
  {
    if labels != [] {
      var before, l := labels[..|labels| - 1], labels[|labels| - 1];
      assert forall i | 0 <= i < |before| :: before[i] == labels[i];
      RefusalsPaid(max, s, before, name, wanted);
      OwnedRun(max, s, before);
      SameRequestStep(max, Run(max, s, before).value, l, name, wanted);
      PotentialStep(max, Run(max, s, before).value, l, name, wanted);
    }
  }

  /** Whatever pod was left under the name, at most two calls are refused for deleting it, outside deletions apart. */
  lemma AtMostTwoRefusals(max: int, s: State, labels: seq<Label>, name: string, wanted: PodSpec)
    requires Fresh(s) && ExclusiveRun(max, s, labels) && RepeatsOnly(labels, name, wanted)
    ensures Refusals(max, s, labels, name) <= 2 + Credits(max, s, labels, name)
    ensures name !in s.pods ==> Refusals(max, s, labels, name) <= Credits(max, s, labels, name)
  {
    RefusalsPaid(max, s, labels, name, wanted);
  }

  predicate RequestFails(l: Label) {
    match l
    case Get(_, fails) => fails
    case List(_, fails, _) => fails
    case Create(_, fate) => !fate.CreateReplied?
    case Reget(_, fails) => fails
    case ForceDelete(_, del) => !del.DeleteReplied?
    case Retire(_, del) => !del.DeleteReplied?
    case _ => false
  }

  /**
   The other refusals of ensureHelper, when its requests are answered: the limit, a pod without a group or
   without a limit configured, a mismatched pod that still runs, or a pod that vanished after a collision.
   */
  lemma RefusalKinds(max: int, s: State, l: Label, c: CallId)
    requires Step(max, s, l).Some? && !RequestFails(l)
    requires c in s.calls && HoldsLock(s.calls[c].pc)
    requires c in Step(max, s, l).value.calls && Step(max, s, l).value.calls[c].pc.Done?
    ensures var desired, ret := s.calls[c].desired, Step(max, s, l).value.calls[c].pc.ret;
            && ret.Failure?
            && match ret.code
               case Aborted => s.calls[c].pc.Listed? && !UnderLimit(desired, s.calls[c].pc.items, max)
               case Internal => max <= 0 || Groups(desired) == {}
               case Unavailable =>
                 || Refusal(s, l, desired.name) == 1
                 || (l == Reget(c, false) && desired.name !in s.pods)
                 || (desired.name in s.pods && Rank(s.pods, desired.name, desired.spec) == 2
                     && !Terminal(s.pods[desired.name]))
               case _ => false
  {
    LockedLabel(max, s, l, c);
  }

  lemma LockedLabel(max: int, s: State, l: Label, c: CallId)
    requires Step(max, s, l).Some? && c in s.calls && HoldsLock(s.calls[c].pc)
    requires c in Step(max, s, l).value.calls && Step(max, s, l).value.calls[c].pc.Done?
    ensures Owner(l) == Some(c)
    ensures l.Get? || l.List? || l.Count? || l.Create? || l.Reget? || l.ForceDelete? || l.Retire?
  {
    if Owner(l) != Some(c) && !l.Restart? { OthersKeepCall(max, s, l, c); }
  }
}
