/**
 The pods that run the LVM work: how the controller builds them, how it recognises them, and how it
 reads from them which volume groups they use.
 */
module HelperPods {
  import opened Wrappers
  import opened Text
  import opened DriverNames

  const HELPER_LABEL := "lvm.driver.harvesterhci.io/helper"
  const RESOURCE_LABEL := "lvm.driver.harvesterhci.io/resource"
  const OPERATION_LABEL := "lvm.driver.harvesterhci.io/operation"
  const VG_ANNOTATION := "lvm.driver.harvesterhci.io/volume-group"
  const PROVISIONER := "csi-lvmplugin-provisioner"
  const SECOND: int := 1_000_000_000

  // ---------------------------------------------------------------- pods

  datatype Phase = NoPhase | Pending | Running | Succeeded | Failed | Unknown

  datatype Container = Container(
    name: string, image: string, command: seq<string>, args: seq<string>, pullPolicy: string)

  /** The fields the driver sets, and two (dnsPolicy, schedulerName) that it leaves to the API server. */
  datatype PodSpec = PodSpec(
    nodeName: string, restartPolicy: string, deadline: int, containers: seq<Container>,
    hostPaths: seq<string>, dnsPolicy: string, schedulerName: string)

  datatype Pod = Pod(
    name: string, labels: map<string, string>, annotations: map<string, string>, spec: PodSpec,
    phase: Phase, deleting: bool)

  predicate Terminal(pod: Pod) {
    pod.phase == Succeeded || pod.phase == Failed
  }

  /** filepath.Base: the last element of a slash-separated path. */
  function Base(path: string): string {
    if path == "" then "."
    else if path[|path| - 1] == '/' then
      if |path| == 1 then "/" else if Base(path[..|path| - 1]) == "." then "/" else Base(path[..|path| - 1])
    else Split(path, '/')[|Split(path, '/')| - 1]
  }

  predicate RunsProvisioner(container: Container) {
    container.command != [] && Base(container.command[0]) == PROVISIONER
  }

  predicate IsHelper(pod: Pod) {
    || Lookup(pod.labels, HELPER_LABEL) == "true"
    || exists container | container in pod.spec.containers :: RunsProvisioner(container)
  }

  predicate ActiveHelper(pod: Pod) {
    IsHelper(pod) && !Terminal(pod)
  }

  // ---------------------------------------------------------------- the groups a pod uses

  const VG_FLAG := "--vgname"
  const SRC_VG_FLAG := "--srcvgname"

  /** What is left of an argument after a prefix, if anything is. */
  function After(arg: string, prefix: string): (groups: set<string>)
    ensures "" !in groups
  {
    if HasPrefix(arg, prefix) && arg != prefix then {arg[|prefix|..]} else {}
  }

  /** What argument i names: the next argument after a bare flag, or the value after an equals sign. */
  function GroupAt(args: seq<string>, i: nat): (groups: set<string>)
    requires i < |args|
    ensures "" !in groups
  {
    if args[i] == VG_FLAG || args[i] == SRC_VG_FLAG then
      if i + 1 < |args| && args[i + 1] != "" then {args[i + 1]} else {}
    else After(args[i], VG_FLAG + "=") + After(args[i], SRC_VG_FLAG + "=")
  }

  function ArgGroups(args: seq<string>): set<string> {
    set i, v | 0 <= i < |args| && v in GroupAt(args, i) :: v
  }

  function AnnotatedGroup(pod: Pod): set<string> {
    var v := Lookup(pod.annotations, VG_ANNOTATION);
    if v != "" then {v} else {}
  }

  function Groups(pod: Pod): set<string> {
    AnnotatedGroup(pod) + set c, v | c in pod.spec.containers && v in ArgGroups(c.args) :: v
  }

  /** What the arguments before n name. */
  function GroupsBefore(args: seq<string>, n: nat): set<string>
    requires n <= |args|
  {
    set i, v | 0 <= i < n && v in GroupAt(args, i) :: v
  }

  lemma GroupsNext(args: seq<string>, n: nat)
    requires n < |args|
    ensures GroupsBefore(args, n + 1) == GroupsBefore(args, n) + GroupAt(args, n)
  {
  }

  method AddVGArgs(groups: set<string>, args: seq<string>) returns (result: set<string>)
    ensures result == groups + ArgGroups(args)
  {
    result := groups;
    for index := 0 to |args|
      invariant result == groups + GroupsBefore(args, index)
    {
      GroupsNext(args, index);
      var arg := args[index];
      if arg == VG_FLAG || arg == SRC_VG_FLAG {
        if index + 1 < |args| && args[index + 1] != "" {
          result := result + {args[index + 1]};
        }
        continue;
      }
      result := AddPrefixed(result, arg);
    }
  }

  /** The inner loop of addVGArgs, over the two prefixes. */
  method AddPrefixed(groups: set<string>, arg: string) returns (result: set<string>)
    ensures result == groups + After(arg, VG_FLAG + "=") + After(arg, SRC_VG_FLAG + "=")
  {
    result := groups;
    var prefixes := [VG_FLAG + "=", SRC_VG_FLAG + "="];
    for p := 0 to |prefixes|
      invariant result == groups + (if p > 0 then After(arg, prefixes[0]) else {})
                                 + (if p > 1 then After(arg, prefixes[1]) else {})
    {
      var value := if HasPrefix(arg, prefixes[p]) then arg[|prefixes[p]|..] else arg;
      if value != arg && value != "" {
        result := result + {value};
      }
    }
  }

  /** The groups of a pod in the order of sort.Strings: one list, however the keys were visited. */
  method HelperVGs(pod: Pod) returns (groups: seq<string>)
    ensures StrictlySorted(groups)
    ensures forall v :: v in groups <==> v in Groups(pod)
  {
    var keys := {};
    var vgName := Lookup(pod.annotations, VG_ANNOTATION);
    if vgName != "" {
      keys := keys + {vgName};
    }
    for c := 0 to |pod.spec.containers|
      invariant keys == AnnotatedGroup(pod)
                        + set i, v | 0 <= i < c && v in ArgGroups(pod.spec.containers[i].args) :: v
    {
      keys := AddVGArgs(keys, pod.spec.containers[c].args);
    }
    assert keys == Groups(pod);
    groups := SortStrings(keys);
  }

  method HelperUsesVG(pod: Pod, vgName: string) returns (uses: bool)
    ensures uses <==> vgName in Groups(pod)
  {
    var groups := HelperVGs(pod);
    for i := 0 to |groups|
      invariant vgName !in groups[..i]
    {
      if groups[i] == vgName {
        assert groups[i] in groups;
        return true;
      }
    }
    assert groups[..|groups|] == groups;
    return false;
  }

  // ---------------------------------------------------------------- counting active helpers

  /** Whether a listed pod counts against the group for a newcomer. */
  predicate CountsAgainst(pod: Pod, desired: Pod, vgName: string) {
    && pod.name != desired.name
    && pod.spec.nodeName == desired.spec.nodeName
    && ActiveHelper(pod)
    && vgName in Groups(pod)
  }

  function Counted(pods: seq<Pod>, desired: Pod, vgName: string): set<int> {
    set i | 0 <= i < |pods| && CountsAgainst(pods[i], desired, vgName)
  }

  lemma CountedNext(pods: seq<Pod>, desired: Pod, vgName: string, i: nat)
    requires i < |pods|
    ensures |Counted(pods[..i + 1], desired, vgName)|
         == |Counted(pods[..i], desired, vgName)| + if CountsAgainst(pods[i], desired, vgName) then 1 else 0
  {
    var before, after := Counted(pods[..i], desired, vgName), Counted(pods[..i + 1], desired, vgName);
    assert after == before + if CountsAgainst(pods[i], desired, vgName) then {i as int} else {};
  }

  method CountActiveHelpers(pods: seq<Pod>, desired: Pod, vgName: string) returns (active: nat)
    ensures active == |Counted(pods, desired, vgName)|
  {
    active := 0;
    assert Counted(pods[..0], desired, vgName) == {};
    for i := 0 to |pods|
      invariant active == |Counted(pods[..i], desired, vgName)|
    {
      CountedNext(pods, desired, vgName, i);
      var pod := pods[i];
      if pod.name != desired.name && pod.spec.nodeName == desired.spec.nodeName {
        var uses := HelperUsesVG(pod, vgName);
        if ActiveHelper(pod) && uses {
          active := active + 1;
        }
      }
    }
    assert pods[..|pods|] == pods;
  }

  // ---------------------------------------------------------------- actions and their arguments

  datatype Source = Source(lvName: string, vgName: string, lvmType: string)

  datatype Action =
    | CreateVolume(size: int)
    | DeleteVolume(source: Option<Source>)
    | CloneVolume(size: int, source: Option<Source>)
    | CreateSnapshot(srcVolume: string, snapSize: int)
    | DeleteSnapshot

  datatype HelperConfig = HelperConfig(
    commandTimeout: int, podTimeout: int, thinPoolCreateTimeout: int, thinPoolPodTimeout: int, maxActive: int)

  /** A volumeAction or a snapshotAction. Durations are nanoseconds; a printed duration is any text. */
  datatype Params = Params(
    action: Action, name: string, nodeName: string, vgName: string, lvmType: string,
    hostWritePath: string, image: string, pullPolicy: string, config: HelperConfig)

  predicate IsSnapshot(action: Action) {
    action.CreateSnapshot? || action.DeleteSnapshot?
  }

  function Verb(action: Action): string {
    match action
    case CreateVolume(_) => "create"
    case DeleteVolume(_) => "delete"
    case CloneVolume(_, _) => "clone"
    case CreateSnapshot(_, _) => "create"
    case DeleteSnapshot => "delete"
  }

  /** volumeHelperArgs and snapshotHelperArgs; None when they report an error. */
  function HelperArgs(p: Params): Option<seq<string>> {
    if p.name == "" || p.nodeName == "" then None
    else match p.action
      case CreateVolume(size) =>
        if p.lvmType == "" then None
        else Some(["createlv", "--lvsize", FormatInt(size), "--lvmtype", p.lvmType, VG_FLAG, p.vgName,
                   "--lvname", p.name])
      case DeleteVolume(None) => None
      case DeleteVolume(Some(src)) =>
        Some(["deletelv", SRC_VG_FLAG, src.vgName, "--srctype", src.lvmType, "--lvname", p.name])
      case CloneVolume(_, None) => None
      case CloneVolume(size, Some(src)) =>
        Some(["clonelv", "--srclvname", src.lvName, SRC_VG_FLAG, src.vgName, "--srctype", src.lvmType,
              "--lvsize", FormatInt(size), VG_FLAG, p.vgName, "--lvmtype", p.lvmType, "--lvname", p.name])
      case CreateSnapshot(srcVolume, size) =>
        if srcVolume == "" then None
        else Some(["createsnap", "--snapname", p.name, "--lvname", srcVolume, VG_FLAG, p.vgName,
                   "--lvsize", FormatInt(size), "--lvmtype", p.lvmType])
      case DeleteSnapshot =>
        Some(["deletesnap", "--snapname", p.name, VG_FLAG, p.vgName])
  }

  function Operation(action: Action): string {
    (if IsSnapshot(action) then "snap" else "lvm") + "-" + Verb(action)
  }

  function PodName(action: Action, name: string): string {
    Operation(action) + "-" + name
  }

  /** Go's integer division truncates toward zero. */
  function TruncatedDiv(a: int, b: int): int
    requires b > 0
  {
    if a >= 0 then a / b else -(-a / b)
  }

  function DurationSeconds(duration: int): int {
    var seconds := TruncatedDiv(duration, SECOND);
    if duration % SECOND != 0 then seconds + 1 else seconds
  }

  /** Only the snapshot actions carry no lvmType into the pod parameters. */
  function PodTimeout(p: Params): int {
    if p.action.CreateVolume? && p.lvmType == DM_THIN then p.config.thinPoolPodTimeout else p.config.podTimeout
  }

  function TimeoutFlags(config: HelperConfig, show: int -> string): seq<string> {
    ["--command-timeout=" + show(config.commandTimeout),
     "--thin-pool-create-timeout=" + show(config.thinPoolCreateTimeout)]
  }

  function NewHelperPod(p: Params, args: seq<string>, show: int -> string): Pod {
    Pod(
      PodName(p.action, p.name),
      map[HELPER_LABEL := "true",
          RESOURCE_LABEL := if IsSnapshot(p.action) then "snapshot" else "volume",
          OPERATION_LABEL := Verb(p.action)],
      map[VG_ANNOTATION := p.vgName],
      PodSpec(
        p.nodeName, "Never", DurationSeconds(PodTimeout(p)),
        [Container("csi-lvmplugin-" + Operation(p.action), p.image, [PROVISIONER],
                   TimeoutFlags(p.config, show) + args, p.pullPolicy)],
        ["/dev", "/lib/modules", p.hostWritePath + "/backup", p.hostWritePath + "/cache",
         p.hostWritePath + "/lock", "/etc/lvm/lvm.conf", "/run/udev"],
        "", ""),
      NoPhase, false)
  }

  // ---------------------------------------------------------------- what the API server stores, and the reuse test

  function Default(field: string, value: string): string {
    if field == "" then value else field
  }

  /** The stored form of a created pod: unset fields are filled in, and the pod is pending. */
  function Stored(desired: Pod): Pod {
    desired.(
      phase := Pending,
      deleting := false,
      spec := desired.spec.(dnsPolicy := Default(desired.spec.dnsPolicy, "ClusterFirst"),
                            schedulerName := Default(desired.spec.schedulerName, "default-scheduler")))
  }

  // equality.Semantic.DeepDerivative: empty strings and empty lists are ignored, and a list needs only
  // to agree with a prefix of the other.

  predicate DerivesString(a: string, b: string) {
    a == "" || a == b
  }

  predicate DerivesStrings(a: seq<string>, b: seq<string>) {
    |a| <= |b| && forall i | 0 <= i < |a| :: DerivesString(a[i], b[i])
  }

  predicate DerivesContainer(a: Container, b: Container) {
    && DerivesString(a.name, b.name)
    && DerivesString(a.image, b.image)
    && DerivesStrings(a.command, b.command)
    && DerivesStrings(a.args, b.args)
    && DerivesString(a.pullPolicy, b.pullPolicy)
  }

  predicate Derives(a: PodSpec, b: PodSpec) {
    && DerivesString(a.nodeName, b.nodeName)
    && DerivesString(a.restartPolicy, b.restartPolicy)
    && a.deadline == b.deadline
    && |a.containers| <= |b.containers|
    && (forall i | 0 <= i < |a.containers| :: DerivesContainer(a.containers[i], b.containers[i]))
    && DerivesStrings(a.hostPaths, b.hostPaths)
    && DerivesString(a.dnsPolicy, b.dnsPolicy)
    && DerivesString(a.schedulerName, b.schedulerName)
  }
}
