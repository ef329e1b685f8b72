/**
 The helper protocol together with the nodes' volumes: a pod succeeds only when its program has done its job. A call
 that returned success thereby knows that its own job was done on its own node, at some moment.
 */
module HelperEffects {
  import opened Wrappers
  import opened DriverNames
  import opened HelperPods
  import opened HelperPodFacts
  import opened HelperSystem
  import opened HelperLimit
  import opened HelperOwnership
  import opened HelperCommands
  import opened LvmTable
  import opened LvmSpec
  import opened LvmSnapshotSpec
  import opened Provisioner

  /** The moment at which a program exited with success: where, what it was told, and the volumes before and after. */
  datatype Exit = Exit(node: string, args: seq<string>, before: Table, after: Table)

  /** exits: a history of successful exits. */
  datatype World = World(s: State, tables: map<string, Table>, exits: seq<Exit>)

  datatype WorldLabel =
    | Protocol(l: Label)                         // a step of the protocol other than a helper's success
    | Exits(name: string, after: Table)          // the program of that pod has done its job and exits
    | NodeActs(node: string, after: Table)       // whatever else happens to the volumes of a node

  function TableOf(w: World, node: string): Table {
    if node in w.tables then w.tables[node] else map[]
  }

  /** The program does the job it reads from its command line. */
  ghost predicate DoesJob(args: seq<string>, before: Table, after: Table) {
    && WellFormed(before) && WellFormed(after)
    && ParseCommandLine(args).Some? && JobDone(before, after, ParseCommandLine(args).value)
  }

  predicate ReportsSuccess(s: State, l: Label) {
    l.EnvPhase? && l.phase == Succeeded && l.name in s.pods && IsHelper(s.pods[l.name])
  }

  ghost function WorldStep(max: int, w: World, wl: WorldLabel): Option<World> {
    match wl
    case Protocol(l) =>
      if ReportsSuccess(w.s, l) || Step(max, w.s, l).None? then None else Some(w.(s := Step(max, w.s, l).value))
    case Exits(name, after) => ExitStep(max, w, name, after)
    case NodeActs(node, after) => Some(w.(tables := w.tables[node := after]))
  }

  ghost function ExitStep(max: int, w: World, name: string, after: Table): Option<World> {
    var l := EnvPhase(name, Succeeded);
    if Step(max, w.s, l).None? || !IsHelper(w.s.pods[name]) || |w.s.pods[name].spec.containers| != 1 then None
    else
      var pod := w.s.pods[name];
      var args, before := pod.spec.containers[0].args, TableOf(w, pod.spec.nodeName);
      if !DoesJob(args, before, after) then None
      else Some(World(Step(max, w.s, l).value, w.tables[pod.spec.nodeName := after],
                      w.exits + [Exit(pod.spec.nodeName, args, before, after)]))
  }

  ghost function WorldRun(max: int, w: World, labels: seq<WorldLabel>): Option<World> {
    if labels == [] then Some(w)
    else
      match WorldRun(max, w, labels[..|labels| - 1])
      case None => None
      case Some(v) => WorldStep(max, v, labels[|labels| - 1])
  }

  // ---------------------------------------------------------------- the protocol's part of a run

  function Shadow(wl: WorldLabel): seq<Label> {
    match wl
    case Protocol(l) => [l]
    case Exits(name, _) => [EnvPhase(name, Succeeded)]
    case NodeActs(_, _) => []
  }

  function Shadows(labels: seq<WorldLabel>): seq<Label> {
    if labels == [] then [] else Shadows(labels[..|labels| - 1]) + Shadow(labels[|labels| - 1])
  }

  /** Seen from the protocol, a run of the world is a run of the protocol. */
  lemma {:induction false} ShadowRuns(max: int, w: World, labels: seq<WorldLabel>)
    requires WorldRun(max, w, labels).Some?
    ensures Run(max, w.s, Shadows(labels)) == Some(WorldRun(max, w, labels).value.s)
  {
    if labels != [] {
      var before, wl := labels[..|labels| - 1], labels[|labels| - 1];
      ShadowRuns(max, w, before);
      ShadowSteps(max, WorldRun(max, w, before).value, wl);
      if Shadow(wl) == [] {
        assert Shadows(labels) == Shadows(before);
      } else {
        assert Shadows(labels) == Shadows(before) + [Shadow(wl)[0]];
        RunExtends(max, w.s, Shadows(before), Shadow(wl)[0]);
      }
    }
  }

  /** The protocol step behind a step of the world, if there is one. */
  lemma ShadowSteps(max: int, w: World, wl: WorldLabel)
    requires WorldStep(max, w, wl).Some?
    ensures |Shadow(wl)| <= 1
    ensures if Shadow(wl) == [] then WorldStep(max, w, wl).value.s == w.s
            else Step(max, w.s, Shadow(wl)[0]) == Some(WorldStep(max, w, wl).value.s)
  {
  }

  // ---------------------------------------------------------------- every success has an exit

  /** The history holds a successful exit of a pod with this spec. */
  ghost predicate Exited(exits: seq<Exit>, spec: PodSpec) {
    && |spec.containers| == 1
    && exists i | 0 <= i < |exits| ::
         && exits[i].node == spec.nodeName && exits[i].args == spec.containers[0].args
         && DoesJob(exits[i].args, exits[i].before, exits[i].after)
  }

  ghost predicate PodsExited(pods: Store, exits: seq<Exit>) {
    forall n | n in pods && IsHelper(pods[n]) && pods[n].phase == Succeeded :: Exited(exits, pods[n].spec)
  }

  ghost predicate CallExited(call: Call, exits: seq<Exit>) {
    match call.pc
    case Seen(pod) => pod.phase == Succeeded ==> Exited(exits, pod.spec)
    case Done(Success(pod)) => Exited(exits, pod.spec)
    case _ => true
  }

  ghost predicate Witnessed(w: World) {
    PodsExited(w.s.pods, w.exits) && forall c | c in w.s.calls :: CallExited(w.s.calls[c], w.exits)
  }

  lemma ExitedStays(exits: seq<Exit>, more: seq<Exit>, spec: PodSpec)
    requires exits <= more && Exited(exits, spec)
    ensures Exited(more, spec)
  {
    var i :| 0 <= i < |exits| && exits[i].node == spec.nodeName && exits[i].args == spec.containers[0].args
             && DoesJob(exits[i].args, exits[i].before, exits[i].after);
    assert more[i] == exits[i];
  }

  /** A helper pod comes to its success by no other step of the protocol than the report of it. */
  lemma BecomesSucceeded(max: int, s: State, l: Label, n: string)
    requires Step(max, s, l).Some? && n in Step(max, s, l).value.pods
    requires IsHelper(Step(max, s, l).value.pods[n]) && Step(max, s, l).value.pods[n].phase == Succeeded
    ensures n in s.pods && IsHelper(s.pods[n]) && Step(max, s, l).value.pods[n].spec == s.pods[n].spec
    ensures s.pods[n].phase == Succeeded || l == EnvPhase(n, Succeeded)
  {
    if !(Creates(s, l) && n == s.calls[l.c].desired.name) {
      SamePodStep(max, s, l, n);
    }
  }

  lemma PodsExitedStep(max: int, w: World, wl: WorldLabel)
    requires PodsExited(w.s.pods, w.exits) && WorldStep(max, w, wl).Some?
    ensures PodsExited(WorldStep(max, w, wl).value.s.pods, WorldStep(max, w, wl).value.exits)
    ensures w.exits <= WorldStep(max, w, wl).value.exits
  {
    var v := WorldStep(max, w, wl).value;
    forall n | n in v.s.pods && IsHelper(v.s.pods[n]) && v.s.pods[n].phase == Succeeded
      ensures Exited(v.exits, v.s.pods[n].spec)
    {
      match wl
      case NodeActs(_, _) =>
      case Protocol(l) => BecomesSucceeded(max, w.s, l, n);
      case Exits(name, after) => ExitedHere(max, w, name, after, n);
    }
  }

  lemma ExitedHere(max: int, w: World, name: string, after: Table, n: string)
    requires PodsExited(w.s.pods, w.exits) && ExitStep(max, w, name, after).Some?
    requires var v := ExitStep(max, w, name, after).value;
             n in v.s.pods && IsHelper(v.s.pods[n]) && v.s.pods[n].phase == Succeeded
    ensures Exited(ExitStep(max, w, name, after).value.exits, ExitStep(max, w, name, after).value.s.pods[n].spec)
  {
    var v := ExitStep(max, w, name, after).value;
    BecomesSucceeded(max, w.s, EnvPhase(name, Succeeded), n);
    if w.s.pods[n].phase == Succeeded {
      ExitedStays(w.exits, v.exits, w.s.pods[n].spec);
    } else {
      assert v.exits[|w.exits|].args == w.s.pods[n].spec.containers[0].args;
    }
  }

  /** What a step passes on to a call: what it had, the pod it has just polled, or the successful pod it had seen. */
  ghost predicate PassedOn(pods: Store, d: Call, e: Call) {
    && (e.pc.Seen? ==> e == d || (d.pc.Waiting? && d.desired.name in pods && e.pc.pod == pods[d.desired.name]))
    && (e.pc.Done? && e.pc.ret.Success? ==>
          e == d || (d.pc.Seen? && e.pc.ret.seen == d.pc.pod && d.pc.pod.phase == Succeeded))
  }

  lemma StepPassesOn(max: int, s: State, l: Label, c: CallId)
    requires Step(max, s, l).Some? && c in s.calls && c in Step(max, s, l).value.calls
    ensures PassedOn(s.pods, s.calls[c], Step(max, s, l).value.calls[c])
  {
    if Owner(l) != Some(c) && !l.Restart? { OthersKeepCall(max, s, l, c); }
  }

  lemma CallExitedStep(max: int, w: World, wl: WorldLabel, c: CallId, show: int -> string)
    requires Witnessed(w) && Built(w.s, show) && Owned(w.s) && WorldStep(max, w, wl).Some?
    requires c in WorldStep(max, w, wl).value.s.calls
    ensures CallExited(WorldStep(max, w, wl).value.s.calls[c], WorldStep(max, w, wl).value.exits)
  {
    var v := WorldStep(max, w, wl).value;
    PodsExitedStep(max, w, wl);
    ShadowSteps(max, w, wl);
    if Shadow(wl) != [] && c !in w.s.calls {
      NewCall(max, w.s, Shadow(wl)[0], c);
    } else {
      if Shadow(wl) != [] { StepPassesOn(max, w.s, Shadow(wl)[0], c); }
      KnowsItsExit(w, v.exits, c, v.s.calls[c], show);
    }
  }

  lemma KnowsItsExit(w: World, exits: seq<Exit>, c: CallId, e: Call, show: int -> string)
    requires Witnessed(w) && Built(w.s, show) && Owned(w.s) && w.exits <= exits && c in w.s.calls
    requires PassedOn(w.s.pods, w.s.calls[c], e)
    ensures CallExited(e, exits)
  {
    var d := w.s.calls[c];
    assert CallExited(d, w.exits) && CallBuilt(d, show) && Knows(w.s, d);
    if e.pc.Seen? && e.pc.pod.phase == Succeeded {
      if e != d {
        var p: Params :| HelperArgs(p).Some? && d.desired == NewHelperPod(p, HelperArgs(p).value, show);
        DerivedIsHelper(p, w.s.pods[d.desired.name], show);
      }
      ExitedStays(w.exits, exits, e.pc.pod.spec);
    } else if e.pc.Done? && e.pc.ret.Success? {
      ExitedStays(w.exits, exits, e.pc.ret.seen.spec);
    }
  }

  lemma WitnessedStep(max: int, w: World, wl: WorldLabel, show: int -> string)
    requires Witnessed(w) && Built(w.s, show) && Owned(w.s) && WorldStep(max, w, wl).Some?
    ensures Witnessed(WorldStep(max, w, wl).value)
  {
    PodsExitedStep(max, w, wl);
    forall c | c in WorldStep(max, w, wl).value.s.calls
      ensures CallExited(WorldStep(max, w, wl).value.s.calls[c], WorldStep(max, w, wl).value.exits)
    {
      CallExitedStep(max, w, wl, c, show);
    }
  }

  // ---------------------------------------------------------------- over whole runs

  /** Every helper that an earlier controller left behind as succeeded did exit with success. */
  ghost predicate FreshWorld(w: World, show: int -> string) {
    Fresh(w.s) && StoreBuilt(w.s.pods, show) && PodsExited(w.s.pods, w.exits)
  }

  lemma ShadowsExtend(labels: seq<WorldLabel>)
    requires labels != []
    ensures Shadows(labels[..|labels| - 1]) <= Shadows(labels)
  {
  }

  lemma {:induction false} ExclusivePrefix(max: int, s: State, longer: seq<Label>, n: nat)
    requires ExclusiveRun(max, s, longer) && n <= |longer|
    ensures ExclusiveRun(max, s, longer[..n])
  {
    if n < |longer| {
      ExclusivePrefix(max, s, longer[..|longer| - 1], n);
      assert longer[..|longer| - 1][..n] == longer[..n];
    } else {
      assert longer[..n] == longer;
    }
  }

  lemma {:induction false} WitnessedRun(max: int, w: World, labels: seq<WorldLabel>, show: int -> string)
    requires FreshWorld(w, show) && WorldRun(max, w, labels).Some?
    requires ExclusiveRun(max, w.s, Shadows(labels)) && Requests(Shadows(labels), show)
    ensures Witnessed(WorldRun(max, w, labels).value)
  {
    if labels != [] {
      var before := labels[..|labels| - 1];
      var shadow := Shadows(before);
      ShadowsExtend(labels);
      assert Shadows(labels)[..|shadow|] == shadow;
      ExclusivePrefix(max, w.s, Shadows(labels), |shadow|);
      assert forall i | 0 <= i < |shadow| :: shadow[i] == Shadows(labels)[i];
      WitnessedRun(max, w, before, show);
      ShadowRuns(max, w, before);
      BuiltRun(max, w.s, shadow, show);
      OwnedRun(max, w.s, shadow);
      WitnessedStep(max, WorldRun(max, w, before).value, labels[|labels| - 1], show);
    }
  }

  /** A call for a validated request that returned success: its own job was done on its own node, at some moment. */
  lemma SuccessMeansDone(max: int, w: World, labels: seq<WorldLabel>, show: int -> string, c: CallId, p: Params)
    returns (exit: Exit)
    requires FreshWorld(w, show) && WorldRun(max, w, labels).Some?
    requires ExclusiveRun(max, w.s, Shadows(labels)) && Requests(Shadows(labels), show)
    requires Validated(p) && HelperArgs(p).Some? && JobOf(p).Some?
    requires var s := WorldRun(max, w, labels).value.s;
             && c in s.calls && s.calls[c].desired == NewHelperPod(p, HelperArgs(p).value, show)
             && s.calls[c].pc.Done? && s.calls[c].pc.ret.Success?
    ensures exit in WorldRun(max, w, labels).value.exits
    ensures exit.node == p.nodeName && WellFormed(exit.before) && WellFormed(exit.after)
    ensures JobDone(exit.before, exit.after, JobOf(p).value)
  {
    var v := WorldRun(max, w, labels).value;
    ShadowRuns(max, w, labels);
    WitnessedRun(max, w, labels, show);
    ValidatedRanItsCommand(max, w.s, Shadows(labels), show, c, p);
    CommandLineParsesBack(p, show);
    assert CallExited(v.s.calls[c], v.exits);
    var spec := v.s.calls[c].pc.ret.seen.spec;
    var i :| 0 <= i < |v.exits| && v.exits[i].node == spec.nodeName && v.exits[i].args == spec.containers[0].args
             && DoesJob(v.exits[i].args, v.exits[i].before, v.exits[i].after);
    exit := v.exits[i];
  }

  /** What that means for the volumes at that moment, action by action. */
  lemma DoneMeans(p: Params, before: Table, after: Table)
    requires JobOf(p).Some? && WellFormed(before) && WellFormed(after) && JobDone(before, after, JobOf(p).value)
    ensures match p.action
            case CreateVolume(size) => size >= 0 && Provided(after, p.vgName, p.name, size, p.lvmType)
            case CloneVolume(size, Some(src)) =>
              if "lvm-snapshot-" <= src.lvName && src.lvmType == "dm-thin" && p.lvmType == "dm-thin" && src.vgName == p.vgName
              then Key(p.vgName, p.name) in after && after[Key(p.vgName, p.name)].origin == src.lvName
              else size >= 0 && Provided(after, p.vgName, p.name, size, p.lvmType)
            case DeleteVolume(Some(src)) => Key(src.vgName, p.name) !in after
            case CreateSnapshot(src, space) =>
              SnapshotStands(before, after, p.vgName, "lvm-" + p.name, src, space, p.lvmType)
            case DeleteSnapshot => Key(p.vgName, "lvm-" + p.name) !in after
            case _ => true
  {
    DoneGives(before, after, JobOf(p).value);
  }
}
