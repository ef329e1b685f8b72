/**
 The limit on active helpers: in every reachable state, each node and volume group is used by at most
 MaxActive helper pods that are not finished, although admission counts a list that is stale by the time
 the pod is created, and whatever the environment and the other calls do in between.
 */
module HelperLimit {
  import opened Wrappers
  import opened HelperPods
  import opened HelperSystem

  /** The names of the unfinished helpers on a node that use a group. */
  ghost function Users(pods: Store, node: string, vgName: string): set<string> {
    set n | n in pods && ActiveHelper(pods[n]) && pods[n].spec.nodeName == node && vgName in Groups(pods[n])
  }

  /** A pod uses a group of its node if it is a helper, has neither succeeded nor failed, and names the group. */
  lemma UsersMean(pods: Store, n: string, node: string, vgName: string)
    ensures n in Users(pods, node, vgName) <==>
              && n in pods && IsHelper(pods[n]) && pods[n].phase !in {Succeeded, Failed}
              && pods[n].spec.nodeName == node && vgName in Groups(pods[n])
  {
  }

  ghost predicate WithinLimit(max: int, pods: Store) {
    forall node, vgName :: |Users(pods, node, vgName)| <= if max > 0 then max else 0
  }

  ghost predicate WellNamed(pods: Store) {
    forall n | n in pods :: pods[n].name == n
  }

  /** A freshly started controller: no call yet, and the store as an earlier controller left it. */
  ghost predicate Initial(max: int, s: State) {
    s.calls == map[] && s.lock == None && WellNamed(s.pods) && WithinLimit(max, s.pods)
  }

  // ---------------------------------------------------------------- sets and their sizes

  lemma {:induction false} SubsetSize<T>(a: set<T>, b: set<T>)
    requires a <= b
    ensures |a| <= |b|
  {
    if a != {} {
      var x :| x in a;
      SubsetSize(a - {x}, b - {x});
    }
  }

  /** Names that all occur at a counted index are no more than the counted indices. */
  lemma {:induction false} NamesAtIndices(items: seq<Pod>, names: set<string>, indices: set<int>)
    requires forall i | i in indices :: 0 <= i < |items|
    requires forall n | n in names :: exists i :: i in indices && items[i].name == n
    ensures |names| <= |indices|
  {
    if names != {} {
      var n :| n in names;
      var i :| i in indices && items[i].name == n;
      forall m | m in names - {n} ensures exists j :: j in indices - {i} && items[j].name == m {
        var j :| j in indices && items[j].name == m;
        assert j in indices - {i};
      }
      NamesAtIndices(items, names - {n}, indices - {i});
    }
  }

  lemma Member<T>(s: set<T>) returns (x: T)
    requires s != {}
    ensures x in s
  {
    x :| x in s;
  }

  /** Indices of differently named pods are no more than a set that contains all their names. */
  lemma {:induction false} IndicesAtNames(items: seq<Pod>, names: set<string>, indices: set<int>)
    requires forall i | i in indices :: 0 <= i < |items|
    requires forall i | i in indices :: items[i].name in names
    requires forall i, j | i in indices && j in indices && i != j :: items[i].name != items[j].name
    ensures |indices| <= |names|
  {
    if indices != {} {
      var i := Member(indices);
      IndicesAtNames(items, names - {items[i].name}, indices - {i});
    }
  }

  /** A list that is not stale counts nothing twice and nothing that is not there. */
  lemma CountAtMost(items: seq<Pod>, pods: Store, desired: Pod, vgName: string)
    requires Lists(items, pods)
    ensures |Counted(items, desired, vgName)| <= |Users(pods, desired.spec.nodeName, vgName) - {desired.name}|
  {
    var counted := Counted(items, desired, vgName);
    forall i, j | i in counted && j in counted && i != j ensures items[i].name != items[j].name {
      assert i < j || j < i;
    }
    IndicesAtNames(items, Users(pods, desired.spec.nodeName, vgName) - {desired.name}, counted);
  }

  /** On a list that is not stale the count is the number of other helpers that use the group. */
  lemma CountExact(items: seq<Pod>, pods: Store, desired: Pod, vgName: string)
    requires Lists(items, pods) && WellNamed(pods)
    ensures |Counted(items, desired, vgName)| == |Users(pods, desired.spec.nodeName, vgName) - {desired.name}|
  {
    ListCovers(items, pods);
    CountCovers(items, pods, desired, vgName);
    CountAtMost(items, pods, desired, vgName);
  }

  /** Counting a list that is not stale admits exactly when there is room. */
  lemma FreshListExact(max: int, items: seq<Pod>, pods: Store, desired: Pod)
    requires max > 0 && Lists(items, pods) && WellNamed(pods)
    ensures UnderLimit(desired, items, max) <==> Room(max, pods, desired)
  {
    forall vgName | vgName in Groups(desired)
      ensures |Counted(items, desired, vgName)| == |Users(pods, desired.spec.nodeName, vgName) - {desired.name}|
    {
      CountExact(items, pods, desired, vgName);
    }
  }

  // ---------------------------------------------------------------- what no step but a create can do

  predicate SameUse(a: Pod, b: Pod) {
    a.name == b.name && a.spec.nodeName == b.spec.nodeName && Groups(a) == Groups(b)
  }

  /** Every active helper of the second store was one of the first, with the same name, node and groups. */
  ghost predicate Shrinks(before: Store, after: Store) {
    forall n | n in after && ActiveHelper(after[n]) ::
      n in before && ActiveHelper(before[n]) && SameUse(before[n], after[n])
  }

  ghost predicate Creates(s: State, l: Label) {
    && l.Create?
    && !l.fate.CreateFailed?
    && At(s, l.c, Admitted)
    && s.calls[l.c].desired.name !in s.pods
  }

  lemma ShrinksDelete(pods: Store, name: string, del: DeleteFate)
    ensures Shrinks(pods, DeleteEffect(pods, name, del))
  {
  }

  lemma ShrinksEnvironment(s: State, l: Label)
    requires StepEnvironment(s, l).Some?
    ensures Shrinks(s.pods, StepEnvironment(s, l).value.pods)
  {
  }

  /** Only deletions, creates and the environment touch the store. */
  lemma StoreUntouched(max: int, s: State, l: Label)
    requires Step(max, s, l).Some? && Owner(l).Some? && !l.ForceDelete? && !l.Retire? && !l.Cleanup? && !Creates(s, l)
    ensures Step(max, s, l).value.pods == s.pods
  {
  }

  lemma ShrinksStep(max: int, s: State, l: Label)
    requires Step(max, s, l).Some? && !Creates(s, l)
    ensures Shrinks(s.pods, Step(max, s, l).value.pods)
  {
    match l
    case ForceDelete(c, del) => ShrinksDelete(s.pods, s.calls[c].desired.name, del);
    case Retire(c, del) => ShrinksDelete(s.pods, s.calls[c].desired.name, del);
    case Cleanup(c, del) => ShrinksDelete(s.pods, s.calls[c].desired.name, del);
    case _ =>
      if Owner(l).Some? { StoreUntouched(max, s, l); } else { ShrinksEnvironment(s, l); }
  }

  lemma UsersShrink(before: Store, after: Store, node: string, vgName: string)
    requires Shrinks(before, after)
    ensures Users(after, node, vgName) <= Users(before, node, vgName)
  {
  }

  // ---------------------------------------------------------------- the invariant

  /** The list shows every helper that is active now: what it shows too much can only overcount. */
  ghost predicate Covers(items: seq<Pod>, pods: Store) {
    forall n | n in pods && ActiveHelper(pods[n]) ::
      exists i :: 0 <= i < |items| && ActiveHelper(items[i]) && SameUse(items[i], pods[n])
  }

  /** There is room for one more helper in every group the new pod needs. */
  ghost predicate Room(max: int, pods: Store, desired: Pod) {
    && max > 0
    && forall vgName | vgName in Groups(desired) ::
         |Users(pods, desired.spec.nodeName, vgName) - {desired.name}| < max
  }

  ghost predicate CallInv(max: int, s: State, call: Call) {
    match call.pc
    case Listed(items) => max > 0 && Covers(items, s.pods)
    case Admitted => Room(max, s.pods, call.desired)
    case _ => true
  }

  ghost predicate LockInv(s: State) {
    && (forall c | c in s.calls :: HoldsLock(s.calls[c].pc) ==> s.lock == Some(c))
    && (s.lock.Some? ==> s.lock.value in s.calls && HoldsLock(s.calls[s.lock.value].pc))
  }

  ghost predicate Inv(max: int, s: State) {
    && WellNamed(s.pods)
    && WithinLimit(max, s.pods)
    && LockInv(s)
    && forall c | c in s.calls :: CallInv(max, s, s.calls[c])
  }

  lemma WellNamedStep(max: int, s: State, l: Label)
    requires WellNamed(s.pods) && Step(max, s, l).Some?
    ensures WellNamed(Step(max, s, l).value.pods)
  {
  }

  lemma HolderStep(max: int, s: State, l: Label, c: CallId)
    requires LockInv(s) && Step(max, s, l).Some?
    requires var t := Step(max, s, l).value; c in t.calls && HoldsLock(t.calls[c].pc)
    ensures Step(max, s, l).value.lock == Some(c)
  {
  }

  lemma LockStep(max: int, s: State, l: Label)
    requires LockInv(s) && Step(max, s, l).Some?
    ensures LockInv(Step(max, s, l).value)
  {
    var t := Step(max, s, l).value;
    forall c | c in t.calls && HoldsLock(t.calls[c].pc) ensures t.lock == Some(c) {
      HolderStep(max, s, l, c);
    }
  }

  /** Counts taken from a list can only have fallen since. */
  lemma CoversShrinks(items: seq<Pod>, before: Store, after: Store)
    requires Covers(items, before) && Shrinks(before, after)
    ensures Covers(items, after)
  {
    forall n | n in after && ActiveHelper(after[n])
      ensures exists i :: 0 <= i < |items| && ActiveHelper(items[i]) && SameUse(items[i], after[n])
    {
      var i :| 0 <= i < |items| && ActiveHelper(items[i]) && SameUse(items[i], before[n]);
      assert SameUse(items[i], after[n]);
    }
  }

  lemma RoomShrinks(max: int, before: Store, after: Store, desired: Pod)
    requires Room(max, before, desired) && Shrinks(before, after)
    ensures Room(max, after, desired)
  {
    forall vgName | vgName in Groups(desired)
      ensures |Users(after, desired.spec.nodeName, vgName) - {desired.name}| < max
    {
      UsersShrink(before, after, desired.spec.nodeName, vgName);
      SubsetSize(Users(after, desired.spec.nodeName, vgName) - {desired.name},
                 Users(before, desired.spec.nodeName, vgName) - {desired.name});
    }
  }

  /** A fresh list covers the store. */
  lemma ListCovers(items: seq<Pod>, pods: Store)
    requires Lists(items, pods) && WellNamed(pods)
    ensures Covers(items, pods)
  {
    forall n | n in pods && ActiveHelper(pods[n])
      ensures exists i :: 0 <= i < |items| && ActiveHelper(items[i]) && SameUse(items[i], pods[n])
    {
      var i :| 0 <= i < |items| && items[i].name == n;
      assert SameUse(items[i], pods[n]);
    }
  }

  /** What a covering list counts is at least what uses the group. */
  lemma CountCovers(items: seq<Pod>, pods: Store, desired: Pod, vgName: string)
    requires WellNamed(pods) && Covers(items, pods)
    ensures |Users(pods, desired.spec.nodeName, vgName) - {desired.name}| <= |Counted(items, desired, vgName)|
  {
    var names := Users(pods, desired.spec.nodeName, vgName) - {desired.name};
    var counted := Counted(items, desired, vgName);
    forall n | n in names ensures exists i :: i in counted && items[i].name == n {
      var i :| 0 <= i < |items| && ActiveHelper(items[i]) && SameUse(items[i], pods[n]);
      assert i in counted;
    }
    NamesAtIndices(items, names, counted);
  }

  /** A count below the limit on a covering list leaves room in the store. */
  lemma CountLeavesRoom(max: int, items: seq<Pod>, pods: Store, desired: Pod)
    requires max > 0 && WellNamed(pods) && Covers(items, pods) && UnderLimit(desired, items, max)
    ensures Room(max, pods, desired)
  {
    forall vgName | vgName in Groups(desired)
      ensures |Users(pods, desired.spec.nodeName, vgName) - {desired.name}| < max
    {
      CountCovers(items, pods, desired, vgName);
    }
  }

  lemma StoredUses(desired: Pod)
    ensures Groups(Stored(desired)) == Groups(desired)
  {
  }

  lemma UsersAfterCreate(pods: Store, desired: Pod, node: string, vgName: string)
    requires desired.name !in pods
    ensures var after := Users(pods[desired.name := Stored(desired)], node, vgName);
            after <= Users(pods, node, vgName)
            || (node == desired.spec.nodeName && vgName in Groups(desired)
                && after <= Users(pods, node, vgName) + {desired.name})
  {
    StoredUses(desired);
  }

  lemma OneMore<T>(after: set<T>, was: set<T>, x: T, max: int)
    requires after <= was + {x} && |was - {x}| < max
    ensures |after| <= max
  {
    assert was + {x} == (was - {x}) + {x};
    SubsetSize(after, (was - {x}) + {x});
  }

  lemma RoomForOne(max: int, pods: Store, desired: Pod, after: set<string>, node: string, vgName: string)
    requires |Users(pods, node, vgName)| <= max
    requires Room(max, pods, desired)
    requires || after <= Users(pods, node, vgName)
             || (node == desired.spec.nodeName && vgName in Groups(desired)
                 && after <= Users(pods, node, vgName) + {desired.name})
    ensures |after| <= max
  {
    if after <= Users(pods, node, vgName) {
      SubsetSize(after, Users(pods, node, vgName));
    } else {
      OneMore(after, Users(pods, node, vgName), desired.name, max);
    }
  }

  /** Creating where there is room stays within the limit. */
  lemma CreateWithinLimit(max: int, pods: Store, desired: Pod)
    requires WithinLimit(max, pods) && Room(max, pods, desired) && desired.name !in pods
    ensures WithinLimit(max, pods[desired.name := Stored(desired)])
  {
    var after := pods[desired.name := Stored(desired)];
    forall node, vgName ensures |Users(after, node, vgName)| <= max {
      UsersAfterCreate(pods, desired, node, vgName);
      RoomForOne(max, pods, desired, Users(after, node, vgName), node, vgName);
    }
  }

  lemma LimitStep(max: int, s: State, l: Label)
    requires Inv(max, s) && Step(max, s, l).Some?
    ensures WithinLimit(max, Step(max, s, l).value.pods)
  {
    var t := Step(max, s, l).value;
    if Creates(s, l) {
      assert CallInv(max, s, s.calls[l.c]);
      CreateWithinLimit(max, s.pods, s.calls[l.c].desired);
    } else {
      ShrinksStep(max, s, l);
      forall node, vgName ensures |Users(t.pods, node, vgName)| <= if max > 0 then max else 0 {
        UsersShrink(s.pods, t.pods, node, vgName);
        SubsetSize(Users(t.pods, node, vgName), Users(s.pods, node, vgName));
      }
    }
  }

  lemma ListedOrAdmittedBefore(max: int, s: State, l: Label, c: CallId)
    requires Inv(max, s) && Step(max, s, l).Some?
    requires c in Step(max, s, l).value.calls
    requires var pc := Step(max, s, l).value.calls[c].pc; pc.Listed? || pc.Admitted?
    ensures !Creates(s, l)
    ensures c in s.calls && Step(max, s, l).value.calls[c].desired == s.calls[c].desired
    ensures (l.List? && l.c == c) || (l.Count? && l.c == c) || Step(max, s, l).value.calls[c] == s.calls[c]
  {
    if c in s.calls && Owner(l) != Some(c) && !l.Restart? {
      OthersKeepCall(max, s, l, c);
      assert s.lock == Some(c);
    }
  }

  /** A call's own knowledge survives every step: of the environment, of others, and its own. */
  lemma CallStep(max: int, s: State, l: Label, c: CallId)
    requires Inv(max, s) && Step(max, s, l).Some?
    requires c in Step(max, s, l).value.calls
    ensures CallInv(max, Step(max, s, l).value, Step(max, s, l).value.calls[c])
  {
    var t := Step(max, s, l).value;
    var pc := t.calls[c].pc;
    if pc.Listed? || pc.Admitted? {
      ListedOrAdmittedBefore(max, s, l, c);
      ShrinksStep(max, s, l);
      assert CallInv(max, s, s.calls[c]);
      if l.List? && l.c == c {
        ListCovers(l.items, s.pods);
      } else if l.Count? && l.c == c {
        CountLeavesRoom(max, s.calls[c].pc.items, s.pods, s.calls[c].desired);
      } else if pc.Listed? {
        CoversShrinks(pc.items, s.pods, t.pods);
      } else {
        RoomShrinks(max, s.pods, t.pods, s.calls[c].desired);
      }
    }
  }

  lemma InvStep(max: int, s: State, l: Label)
    requires Inv(max, s) && Step(max, s, l).Some?
    ensures Inv(max, Step(max, s, l).value)
  {
    WellNamedStep(max, s, l);
    LimitStep(max, s, l);
    LockStep(max, s, l);
    forall c | c in Step(max, s, l).value.calls
      ensures CallInv(max, Step(max, s, l).value, Step(max, s, l).value.calls[c])
    {
      CallStep(max, s, l, c);
    }
  }

  // ---------------------------------------------------------------- over whole runs

  lemma {:induction false} InvRun(max: int, s: State, labels: seq<Label>)
    requires Initial(max, s) && Run(max, s, labels).Some?
    ensures Inv(max, Run(max, s, labels).value)
  {
    if labels != [] {
      InvRun(max, s, labels[..|labels| - 1]);
      InvStep(max, Run(max, s, labels[..|labels| - 1]).value, labels[|labels| - 1]);
    }
  }

  /** In every reachable state every node and group has at most MaxActive unfinished helpers. */
  lemma ActiveHelpersBounded(max: int, s: State, labels: seq<Label>, node: string, vgName: string)
    requires Initial(max, s) && Run(max, s, labels).Some?
    ensures |Users(Run(max, s, labels).value.pods, node, vgName)| <= if max > 0 then max else 0
  {
    InvRun(max, s, labels);
  }
}
