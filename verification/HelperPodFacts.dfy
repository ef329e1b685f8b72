/** What the builders and readers of helper pods promise each other. */
module HelperPodFacts {
  import opened Wrappers
  import opened Text
  import opened DriverNames
  import opened HelperPods

  // ---------------------------------------------------------------- names

  /** A helper pod's name tells the kind of resource, the action and the name it works on. */
  lemma PodNameInjective(a1: Action, n1: string, a2: Action, n2: string)
    requires PodName(a1, n1) == PodName(a2, n2)
    ensures IsSnapshot(a1) == IsSnapshot(a2) && Verb(a1) == Verb(a2) && n1 == n2
  {
    var p1, p2 := PodName(a1, n1), PodName(a2, n2);
    assert p1[0] == (if IsSnapshot(a1) then 's' else 'l');
    assert p2[0] == (if IsSnapshot(a2) then 's' else 'l');
    var k := if IsSnapshot(a1) then 5 else 4;
    assert p1[k] == Verb(a1)[0] && p2[k] == Verb(a2)[0];
    assert p1[k + 1] == Verb(a1)[1] && p2[k + 1] == Verb(a2)[1];
    assert Verb(a1) == Verb(a2);
    assert p1[|Operation(a1)| + 1..] == n1 && p2[|Operation(a2)| + 1..] == n2;
  }

  /** The pod names of the five actions. */
  lemma PodNames(name: string, size: int, source: Option<Source>, volume: string)
    ensures PodName(CreateVolume(size), name) == "lvm-create-" + name
    ensures PodName(DeleteVolume(source), name) == "lvm-delete-" + name
    ensures PodName(CloneVolume(size, source), name) == "lvm-clone-" + name
    ensures PodName(CreateSnapshot(volume, size), name) == "snap-create-" + name
    ensures PodName(HelperPods.DeleteSnapshot, name) == "snap-delete-" + name
  {
    assert "lvm" + "-" + "create" + "-" == "lvm-create-" && "lvm" + "-" + "delete" + "-" == "lvm-delete-";
    assert "lvm" + "-" + "clone" + "-" == "lvm-clone-";
    assert "snap" + "-" + "create" + "-" == "snap-create-" && "snap" + "-" + "delete" + "-" == "snap-delete-";
  }

  // ---------------------------------------------------------------- recognising helpers

  /** The word stands in the path, at its start or after a slash, and nothing but slashes follows it. */
  ghost predicate EndsPath(path: string, word: string, i: int) {
    && 0 <= i <= |path| - |word|
    && path[i..i + |word|] == word
    && (i == 0 || path[i - 1] == '/')
    && forall j | i + |word| <= j < |path| :: path[j] == '/'
  }

  /** The last part of a split: what follows the last separator. */
  lemma {:induction false} LastPart(path: string, sep: char)
    ensures var last := Split(path, sep)[|Split(path, sep)| - 1];
            && |last| <= |path| && path[|path| - |last|..] == last
            && (|last| < |path| ==> path[|path| - |last| - 1] == sep)
            && (|Split(path, sep)| == 1 <==> |last| == |path|)
  {
    if path != "" {
      var rest := Split(path[1..], sep);
      LastPart(path[1..], sep);
      if path[0] == sep {
        assert Split(path, sep) == [""] + rest;
      } else {
        assert Split(path, sep) == [[path[0]] + rest[0]] + rest[1..];
        assert |rest| == 1 ==> path == [path[0]] + rest[0];
      }
    }
  }

  /** A path is that of a program if the program's name is its last element. */
  lemma {:induction false} BaseMeans(path: string, word: string)
    requires word != "" && '/' !in word && word != "."
    ensures Base(path) == word <==> exists i :: EndsPath(path, word, i)
  {
    if path != "" && path[|path| - 1] == '/' {
      var shorter := path[..|path| - 1];
      if |path| > 1 { BaseMeans(shorter, word); }
      forall i ensures EndsPath(path, word, i) <==> EndsPath(shorter, word, i) {
        SlashChangesNothing(path, word, i);
      }
    } else if path != "" {
      LastPart(path, '/');
      var last := Base(path);
      if last == word {
        assert EndsPath(path, word, |path| - |word|);
      }
      forall i | EndsPath(path, word, i) ensures last == word {
        assert i + |word| == |path|;
        LastUnique(path, word, last);
      }
    }
  }

  lemma SlashChangesNothing(path: string, word: string, i: int)
    requires path != "" && path[|path| - 1] == '/' && word != "" && '/' !in word
    ensures EndsPath(path, word, i) <==> EndsPath(path[..|path| - 1], word, i)
  {
    var shorter := path[..|path| - 1];
    if 0 <= i && i + |word| <= |shorter| {
      assert shorter[i..i + |word|] == path[i..i + |word|];
    }
  }

  lemma LastUnique(path: string, a: string, b: string)
    requires |a| <= |path| && |b| <= |path| && '/' !in a && '/' !in b
    requires path[|path| - |a|..] == a && path[|path| - |b|..] == b
    requires |a| < |path| ==> path[|path| - |a| - 1] == '/'
    requires |b| < |path| ==> path[|path| - |b| - 1] == '/'
    ensures a == b
  {
  }

  /** A pod counts as a helper by its label, or by a container that runs the provisioner, wherever that is installed. */
  lemma HelperMeans(pod: Pod)
    ensures IsHelper(pod) <==>
              || (HELPER_LABEL in pod.labels && pod.labels[HELPER_LABEL] == "true")
              || exists c, i :: c in pod.spec.containers && c.command != []
                                && EndsPath(c.command[0], "csi-lvmplugin-provisioner", i)
  {
    forall c | c in pod.spec.containers && c.command != []
      ensures RunsProvisioner(c) <==> exists i :: EndsPath(c.command[0], "csi-lvmplugin-provisioner", i)
    {
      ProvisionerIsAWord();
      BaseMeans(c.command[0], "csi-lvmplugin-provisioner");
    }
  }

  lemma ProvisionerIsAWord()
    ensures "csi-lvmplugin-provisioner" != "" && "csi-lvmplugin-provisioner" != "."
    ensures '/' !in "csi-lvmplugin-provisioner"
  {
  }

  // ---------------------------------------------------------------- groups

  /** A list of arguments names a group by a flag followed by it, or by a flag, an equals sign and it. */
  ghost predicate ArgNames(args: seq<string>, i: int, group: string) {
    && 0 <= i < |args|
    && (|| (args[i] in {"--vgname", "--srcvgname"} && i + 1 < |args| && args[i + 1] == group)
        || args[i] in {"--vgname=" + group, "--srcvgname=" + group})
  }

  lemma ArgGroupsMean(args: seq<string>, group: string)
    ensures group in ArgGroups(args) <==> group != "" && exists i :: ArgNames(args, i, group)
  {
    if group in ArgGroups(args) {
      var i, v :| 0 <= i < |args| && v in GroupAt(args, i) && v == group;
      GroupAtMeans(args, i, group);
    }
    if group != "" && exists i :: ArgNames(args, i, group) {
      var i :| ArgNames(args, i, group);
      GroupAtMeans(args, i, group);
    }
  }

  lemma GroupAtMeans(args: seq<string>, i: nat, group: string)
    requires i < |args|
    ensures group in GroupAt(args, i) <==> group != "" && ArgNames(args, i, group)
  {
    assert "--vgname" + "=" == "--vgname=" && "--srcvgname" + "=" == "--srcvgname=";
    AfterMeans(args[i], "--vgname=", group);
    AfterMeans(args[i], "--srcvgname=", group);
    if args[i] in {"--vgname=" + group, "--srcvgname=" + group} && group != "" {
      assert |args[i]| > 8 && (args[i][8] == '=' || |args[i]| > 11);
    }
  }

  lemma AfterMeans(arg: string, prefix: string, group: string)
    ensures group in After(arg, prefix) <==> group != "" && arg == prefix + group
  {
  }

  /** The groups of a pod: its annotation, and what the arguments of any of its containers name. */
  lemma GroupsMean(pod: Pod, group: string)
    ensures group in Groups(pod) <==>
              group != "" && (|| (VG_ANNOTATION in pod.annotations && pod.annotations[VG_ANNOTATION] == group)
                              || exists c :: c in pod.spec.containers && group in ArgGroups(c.args))
  {
    if exists c :: c in pod.spec.containers && group in ArgGroups(c.args) {
      var c :| c in pod.spec.containers && group in ArgGroups(c.args);
      ArgGroupsMean(c.args, group);
    }
  }

  /** The action's group and, when it has a source, the source's group. */
  function RequestedGroups(p: Params): set<string> {
    {p.vgName} + match p.action
                 case DeleteVolume(Some(src)) => {src.vgName}
                 case CloneVolume(_, Some(src)) => {src.vgName}
                 case _ => {}
  }

  ghost predicate GroupsValid(p: Params) {
    forall v | v in RequestedGroups(p) :: ValidVGName(v)
  }

  predicate FlagShaped(arg: string) {
    || arg == VG_FLAG || arg == SRC_VG_FLAG
    || HasPrefix(arg, VG_FLAG + "=") || HasPrefix(arg, SRC_VG_FLAG + "=")
  }

  /** The arguments that come from the request and are not group names. */
  function FreeArgs(p: Params): set<string> {
    match p.action
    case CreateVolume(_) => {p.lvmType, p.name}
    case DeleteVolume(None) => {p.name}
    case DeleteVolume(Some(src)) => {src.lvmType, p.name}
    case CloneVolume(_, None) => {p.name}
    case CloneVolume(_, Some(src)) => {src.lvName, src.lvmType, p.lvmType, p.name}
    case CreateSnapshot(srcVolume, _) => {srcVolume, p.lvmType, p.name}
    case DeleteSnapshot => {p.name}
  }

  lemma NotFlagShaped(arg: string)
    requires |arg| < 8 || arg[0] != '-' || arg[1] != '-' || (arg[2] != 'v' && (arg[2] != 's' || arg[5] != 'v'))
    ensures !FlagShaped(arg)
  {
  }

  lemma NumeralNotFlagShaped(n: int)
    ensures !FlagShaped(FormatInt(n))
  {
    var s := FormatInt(n);
    if n < 0 {
      assert s[1] == Numeral(-n)[0] && IsDigit(s[1]);
    } else {
      assert IsDigit(s[0]);
    }
    NotFlagShaped(s);
  }

  lemma FixedWordsNotFlagShaped()
    ensures forall word | word in ["createlv", "deletelv", "clonelv", "createsnap", "deletesnap", "--lvsize", "--lvmtype",
                                   "--lvname", "--srctype", "--srclvname", "--snapname"] :: !FlagShaped(word)
  {
    NotFlagShaped("createlv"); NotFlagShaped("deletelv"); NotFlagShaped("clonelv");
    NotFlagShaped("createsnap"); NotFlagShaped("deletesnap"); NotFlagShaped("--lvsize");
    NotFlagShaped("--lvmtype"); NotFlagShaped("--lvname"); NotFlagShaped("--srctype");
    NotFlagShaped("--srclvname"); NotFlagShaped("--snapname");
  }

  /** In the arguments of a helper, a flag-shaped word is a bare group flag followed by a requested group. */
  ghost predicate FlagsNameGroups(args: seq<string>, groups: set<string>) {
    forall i | 0 <= i < |args| :: FlagShaped(args[i]) ==>
      (args[i] == VG_FLAG || args[i] == SRC_VG_FLAG) && i + 1 < |args| && args[i + 1] in groups
  }

  /** The request's own words look like no flag, and its groups are valid. */
  ghost predicate PlainRequest(p: Params) {
    HelperArgs(p).Some? && GroupsValid(p) && forall arg | arg in FreeArgs(p) :: !FlagShaped(arg)
  }

  lemma GroupsNotFlagShaped(p: Params)
    requires GroupsValid(p)
    ensures forall v | v in RequestedGroups(p) :: !FlagShaped(v)
  {
    forall v | v in RequestedGroups(p) ensures !FlagShaped(v) {
      NotFlagShaped(v);
    }
  }

  lemma CreateFlags(p: Params)
    requires PlainRequest(p) && p.action.CreateVolume?
    ensures FlagsNameGroups(HelperArgs(p).value, RequestedGroups(p))
  {
    FixedWordsNotFlagShaped();
    NumeralNotFlagShaped(p.action.size);
    GroupsNotFlagShaped(p);
  }

  lemma DeleteFlags(p: Params)
    requires PlainRequest(p) && p.action.DeleteVolume?
    ensures FlagsNameGroups(HelperArgs(p).value, RequestedGroups(p))
  {
    FixedWordsNotFlagShaped();
    GroupsNotFlagShaped(p);
  }

  lemma CloneFlags(p: Params)
    requires PlainRequest(p) && p.action.CloneVolume?
    ensures FlagsNameGroups(HelperArgs(p).value, RequestedGroups(p))
  {
    FixedWordsNotFlagShaped();
    NumeralNotFlagShaped(p.action.size);
    GroupsNotFlagShaped(p);
  }

  lemma SnapshotFlags(p: Params)
    requires PlainRequest(p) && IsSnapshot(p.action)
    ensures FlagsNameGroups(HelperArgs(p).value, RequestedGroups(p))
  {
    FixedWordsNotFlagShaped();
    GroupsNotFlagShaped(p);
    if p.action.CreateSnapshot? { NumeralNotFlagShaped(p.action.snapSize); }
  }

  lemma HelperArgsFlags(p: Params)
    requires PlainRequest(p)
    ensures FlagsNameGroups(HelperArgs(p).value, RequestedGroups(p))
  {
    match p.action
    case CreateVolume(_) => CreateFlags(p);
    case DeleteVolume(_) => DeleteFlags(p);
    case CloneVolume(_, _) => CloneFlags(p);
    case _ => SnapshotFlags(p);
  }

  /** Every requested group is named by the arguments or the annotation. */
  lemma GroupsCovered(p: Params, show: int -> string)
    requires HelperArgs(p).Some?
    ensures RequestedGroups(p) - {""} <= Groups(NewHelperPod(p, HelperArgs(p).value, show))
  {
    var pod := NewHelperPod(p, HelperArgs(p).value, show);
    var args := pod.spec.containers[0].args;
    assert AnnotatedGroup(pod) == {p.vgName} - {""};
    match p.action
    case DeleteVolume(Some(src)) =>
      assert args[3] == SRC_VG_FLAG && args[4] == src.vgName;
      assert GroupAt(args, 3) == {src.vgName} - {""};
      assert src.vgName != "" ==> src.vgName in ArgGroups(args);
    case CloneVolume(_, Some(src)) =>
      assert args[5] == SRC_VG_FLAG && args[6] == src.vgName;
      assert GroupAt(args, 5) == {src.vgName} - {""};
      assert src.vgName != "" ==> src.vgName in ArgGroups(args);
    case _ =>
  }

  lemma FlaggedGroups(args: seq<string>, groups: set<string>)
    requires FlagsNameGroups(args, groups)
    ensures ArgGroups(args) <= groups
  {
    forall i, v | 0 <= i < |args| && v in GroupAt(args, i) ensures v in groups {
      assert FlagShaped(args[i]);
    }
  }

  lemma FlagsAfterTimeouts(flags: seq<string>, args: seq<string>, groups: set<string>)
    requires FlagsNameGroups(args, groups)
    requires forall flag | flag in flags :: !FlagShaped(flag)
    ensures FlagsNameGroups(flags + args, groups)
  {
    var all := flags + args;
    forall i | 0 <= i < |flags| ensures !FlagShaped(all[i]) {
      assert all[i] == flags[i] && flags[i] in flags;
    }
    forall i | |flags| <= i < |all| && FlagShaped(all[i])
      ensures (all[i] == VG_FLAG || all[i] == SRC_VG_FLAG) && i + 1 < |all| && all[i + 1] in groups
    {
      assert all[i] == args[i - |flags|];
      assert all[i + 1] == args[i - |flags| + 1];
    }
  }

  lemma TimeoutFlagsNotFlagShaped(config: HelperConfig, show: int -> string)
    ensures forall flag | flag in TimeoutFlags(config, show) :: !FlagShaped(flag)
  {
    NotFlagShaped(TimeoutFlags(config, show)[0]);
    NotFlagShaped(TimeoutFlags(config, show)[1]);
  }

  /** Reading the groups of a built pod gives exactly the groups it was built for. */
  lemma GroupsExact(p: Params, show: int -> string)
    requires HelperArgs(p).Some?
    requires GroupsValid(p)
    requires forall arg | arg in FreeArgs(p) :: !FlagShaped(arg)
    ensures Groups(NewHelperPod(p, HelperArgs(p).value, show)) == RequestedGroups(p)
  {
    var args := HelperArgs(p).value;
    var pod := NewHelperPod(p, args, show);
    GroupsCovered(p, show);
    HelperArgsFlags(p);
    TimeoutFlagsNotFlagShaped(p.config, show);
    FlagsAfterTimeouts(TimeoutFlags(p.config, show), args, RequestedGroups(p));
    FlaggedGroups(TimeoutFlags(p.config, show) + args, RequestedGroups(p));
    assert pod.spec.containers[0].args == TimeoutFlags(p.config, show) + args;
    assert AnnotatedGroup(pod) == {p.vgName};
  }

  /** What runs for a request: the provisioner, once and for all, under its settings, labelled as a helper. */
  lemma BuiltPodRuns(p: Params, args: seq<string>, show: int -> string)
    ensures var pod := NewHelperPod(p, args, show);
            && IsHelper(pod) && HELPER_LABEL in pod.labels && pod.labels[HELPER_LABEL] == "true"
            && pod.phase != Succeeded && pod.phase != Failed && !pod.deleting
            && pod.spec.restartPolicy == "Never"
            && |pod.spec.containers| == 1
            && pod.spec.containers[0].command == ["csi-lvmplugin-provisioner"]
            && pod.spec.containers[0].image == p.image && pod.spec.containers[0].pullPolicy == p.pullPolicy
            && pod.spec.hostPaths[2..5] == [p.hostWritePath + "/backup", p.hostWritePath + "/cache", p.hostWritePath + "/lock"]
  {
  }

  /** It is stored as it was built, up to fields that were left unset, and has not finished yet. */
  lemma StoredKeeps(desired: Pod)
    ensures var pod := Stored(desired);
            && pod.name == desired.name && pod.labels == desired.labels && pod.annotations == desired.annotations
            && pod.phase !in {Succeeded, Failed} && !pod.deleting
            && pod.spec.nodeName == desired.spec.nodeName && pod.spec.containers == desired.spec.containers
            && pod.spec.deadline == desired.spec.deadline && pod.spec.restartPolicy == desired.spec.restartPolicy
            && pod.spec.hostPaths == desired.spec.hostPaths
  {
  }

  // ---------------------------------------------------------------- reuse

  /** The stored pod of request q passes the reuse test for request p. */
  predicate Reuses(p: Params, q: Params, show: int -> string) {
    && HelperArgs(p).Some? && HelperArgs(q).Some?
    && PodName(p.action, p.name) == PodName(q.action, q.name)
    && Derives(NewHelperPod(p, HelperArgs(p).value, show).spec, Stored(NewHelperPod(q, HelperArgs(q).value, show)).spec)
  }

  /**
   The controller reuses a pod of the same name only if that pod runs on the same node, with as many arguments, and
   with the same ones except where the request's own argument is empty. Without an empty one the command lines agree.
   */
  lemma ReuseRunsSameCommand(p: Params, q: Params, show: int -> string)
    requires Reuses(p, q, show)
    ensures DerivesStrings(HelperArgs(p).value, HelperArgs(q).value) && |HelperArgs(p).value| == |HelperArgs(q).value|
    ensures "" !in HelperArgs(p).value ==> HelperArgs(p) == HelperArgs(q)
    ensures p.nodeName == q.nodeName
    ensures p.image != "" ==> p.image == q.image
  {
    PodNameInjective(p.action, p.name, q.action, q.name);
    var a, b := HelperArgs(p).value, HelperArgs(q).value;
    var c := NewHelperPod(p, a, show).spec.containers[0];
    var d := NewHelperPod(q, b, show).spec.containers[0];
    assert Derives(NewHelperPod(p, a, show).spec, Stored(NewHelperPod(q, b, show)).spec) ==> DerivesContainer(c, d);
    assert |a| == |b|;
    forall i | 0 <= i < |a| ensures DerivesString(a[i], b[i]) {
      assert c.args[i + 2] == a[i] && d.args[i + 2] == b[i];
      assert DerivesString(c.args[i + 2], d.args[i + 2]);
    }
    DerivedListsAgree(a, b);
  }

  /** Two requests that build the same pod up to the fields that the first leaves unset. */
  predicate SamePodWanted(p: Params, q: Params, show: int -> string) {
    && PodName(p.action, p.name) == PodName(q.action, q.name)
    && HelperArgs(p) == HelperArgs(q) && p.nodeName == q.nodeName && p.hostWritePath == q.hostWritePath
    && (p.image == "" || p.image == q.image) && (p.pullPolicy == "" || p.pullPolicy == q.pullPolicy)
    && show(p.config.commandTimeout) == show(q.config.commandTimeout)
    && show(p.config.thinPoolCreateTimeout) == show(q.config.thinPoolCreateTimeout)
    && DurationSeconds(PodTimeout(p)) == DurationSeconds(PodTimeout(q))
  }

  /** For a request without an empty argument, exactly such a pod is reused. */
  lemma ReuseMeans(p: Params, q: Params, show: int -> string)
    requires HelperArgs(p).Some? && HelperArgs(q).Some? && "" !in HelperArgs(p).value
    ensures Reuses(p, q, show) <==> SamePodWanted(p, q, show)
  {
    if Reuses(p, q, show) {
      ReuseRunsSameCommand(p, q, show);
      ReuseKeepsSettings(p, q, show);
    }
    if SamePodWanted(p, q, show) {
      SamePodReused(p, q, show);
    }
  }

  lemma SamePodReused(p: Params, q: Params, show: int -> string)
    requires HelperArgs(p).Some? && HelperArgs(q).Some? && SamePodWanted(p, q, show)
    ensures Reuses(p, q, show)
  {
    PodNameInjective(p.action, p.name, q.action, q.name);
    var c := NewHelperPod(p, HelperArgs(p).value, show).spec.containers[0];
    var d := Stored(NewHelperPod(q, HelperArgs(q).value, show)).spec.containers[0];
    assert c.args == d.args;
    assert DerivesContainer(c, d);
  }

  lemma ReuseKeepsSettings(p: Params, q: Params, show: int -> string)
    requires Reuses(p, q, show)
    ensures p.hostWritePath == q.hostWritePath && (p.pullPolicy == "" || p.pullPolicy == q.pullPolicy)
    ensures DurationSeconds(PodTimeout(p)) == DurationSeconds(PodTimeout(q))
    ensures show(p.config.commandTimeout) == show(q.config.commandTimeout)
    ensures show(p.config.thinPoolCreateTimeout) == show(q.config.thinPoolCreateTimeout)
  {
    var a := NewHelperPod(p, HelperArgs(p).value, show).spec;
    var b := NewHelperPod(q, HelperArgs(q).value, show).spec;
    var c, d := a.containers[0], b.containers[0];
    assert DerivesContainer(a.containers[0], d);
    assert DerivesString(a.hostPaths[2], b.hostPaths[2]);
    SameStart(p.hostWritePath, q.hostWritePath, "/backup");
    assert DerivesString(c.args[0], d.args[0]) && DerivesString(c.args[1], d.args[1]);
    SameEnd("--command-timeout=", show(p.config.commandTimeout), show(q.config.commandTimeout));
    SameEnd("--thin-pool-create-timeout=", show(p.config.thinPoolCreateTimeout), show(q.config.thinPoolCreateTimeout));
  }

  lemma SameStart(a: string, b: string, end: string)
    requires a + end == b + end
    ensures a == b
  {
    assert a == (a + end)[..|a|] && b == (b + end)[..|b|];
  }

  lemma SameEnd(start: string, a: string, b: string)
    requires start + a == start + b
    ensures a == b
  {
    assert a == (start + a)[|start|..] && b == (start + b)[|start|..];
  }

  lemma DerivedListsAgree(a: seq<string>, b: seq<string>)
    requires DerivesStrings(a, b) && |a| == |b|
    ensures "" !in a ==> a == b
  {
    if "" !in a {
      forall i | 0 <= i < |a| ensures a[i] == b[i] {
        assert a[i] in a && DerivesString(a[i], b[i]);
      }
    }
  }

  function Filled(word: string): string {
    if word == "" then "x" else word
  }

  /** Another request with the same pod name: every empty word that can become an argument is replaced. */
  function OtherRequest(p: Params): Params {
    var action := match p.action
                  case DeleteVolume(Some(src)) => DeleteVolume(Some(FilledSource(src)))
                  case CloneVolume(size, Some(src)) => CloneVolume(size, Some(FilledSource(src)))
                  case a => a;
    p.(action := action, vgName := Filled(p.vgName), lvmType := Filled(p.lvmType))
  }

  function FilledSource(src: Source): Source {
    Source(Filled(src.lvName), Filled(src.vgName), Filled(src.lvmType))
  }

  function AllFilled(words: seq<string>): seq<string> {
    seq(|words|, i requires 0 <= i < |words| => Filled(words[i]))
  }

  lemma OtherCloneArgs(p: Params)
    requires HelperArgs(p).Some? && p.action.CloneVolume?
    ensures HelperArgs(OtherRequest(p)) == Some(AllFilled(HelperArgs(p).value))
  {
    FormatNotEmpty(p.action.size);
    assert HelperArgs(OtherRequest(p)).value == AllFilled(HelperArgs(p).value);
  }

  lemma OtherSnapshotArgs(p: Params)
    requires HelperArgs(p).Some? && IsSnapshot(p.action)
    ensures HelperArgs(OtherRequest(p)) == Some(AllFilled(HelperArgs(p).value))
  {
    if p.action.CreateSnapshot? { FormatNotEmpty(p.action.snapSize); }
    assert HelperArgs(OtherRequest(p)).value == AllFilled(HelperArgs(p).value);
  }

  lemma OtherArgs(p: Params)
    requires HelperArgs(p).Some?
    ensures HelperArgs(OtherRequest(p)) == Some(AllFilled(HelperArgs(p).value))
  {
    match p.action
    case CloneVolume(_, _) => OtherCloneArgs(p);
    case CreateVolume(size) =>
      FormatNotEmpty(size);
      assert HelperArgs(OtherRequest(p)).value == AllFilled(HelperArgs(p).value);
    case DeleteVolume(_) => assert HelperArgs(OtherRequest(p)).value == AllFilled(HelperArgs(p).value);
    case _ => OtherSnapshotArgs(p);
  }

  lemma FormatNotEmpty(n: int)
    ensures FormatInt(n) != ""
  {
    NumeralNotFlagShaped(n);
  }

  /** An empty argument is ignored by the test, so the pod of a request with another word in its place is reused. */
  lemma EmptyArgumentReusesOther(p: Params, show: int -> string)
    requires HelperArgs(p).Some? && "" in HelperArgs(p).value
    ensures Reuses(p, OtherRequest(p), show) && HelperArgs(OtherRequest(p)) != HelperArgs(p)
  {
    OtherArgs(p);
    assert "" !in AllFilled(HelperArgs(p).value);
    var q := OtherRequest(p);
    var a, b := HelperArgs(p).value, HelperArgs(q).value;
    var c := NewHelperPod(p, a, show).spec.containers[0];
    var d := Stored(NewHelperPod(q, b, show)).spec.containers[0];
    var flags := TimeoutFlags(p.config, show);
    forall i | 0 <= i < |c.args| ensures DerivesString(c.args[i], d.args[i]) {
      assert if i < |flags| then c.args[i] == d.args[i] == flags[i]
             else c.args[i] == a[i - |flags|] && d.args[i] == b[i - |flags|];
    }
    assert DerivesContainer(c, d);
  }

  /** Reuse preserves the command line of a request, whichever pod it finds, exactly if no argument is empty. */
  lemma ReuseExact(p: Params, show: int -> string)
    requires HelperArgs(p).Some?
    ensures (forall q | Reuses(p, q, show) :: HelperArgs(q) == HelperArgs(p)) <==> "" !in HelperArgs(p).value
  {
    if "" in HelperArgs(p).value {
      EmptyArgumentReusesOther(p, show);
    } else {
      forall q | Reuses(p, q, show) ensures HelperArgs(q) == HelperArgs(p) {
        ReuseRunsSameCommand(p, q, show);
      }
    }
  }

  /** What the controller's own checks guarantee of every request it makes: groups valid, types known, names not empty. */
  predicate Validated(p: Params) {
    && p.name != "" && p.nodeName != "" && ValidVGName(p.vgName)
    && match p.action
       case CreateVolume(_) => KnownType(p.lvmType)
       case DeleteVolume(Some(src)) => ValidVGName(src.vgName) && KnownType(src.lvmType)
       case CloneVolume(_, Some(src)) =>
         KnownType(p.lvmType) && src.lvName != "" && ValidVGName(src.vgName) && KnownType(src.lvmType)
       case CreateSnapshot(srcVolume, _) => srcVolume != "" && KnownType(p.lvmType)
       case DeleteSnapshot => true
       case _ => false
  }

  /** Such a request has arguments, none of them empty: the pods it joins run its very command line. */
  lemma ValidatedReusesOnlyItself(p: Params, q: Params, show: int -> string)
    requires Validated(p)
    ensures HelperArgs(p).Some? && "" !in HelperArgs(p).value
    ensures Reuses(p, q, show) ==> HelperArgs(q) == HelperArgs(p)
  {
    if Reuses(p, q, show) {
      ReuseRunsSameCommand(p, q, show);
    }
    match p.action
    case CreateVolume(size) => FormatNotEmpty(size);
    case CloneVolume(size, _) => FormatNotEmpty(size);
    case CreateSnapshot(_, size) => FormatNotEmpty(size);
    case _ =>
  }

  /** A fresh pod's stored form always passes the reuse test for a repeat of the same request. */
  lemma StoredDerives(desired: Pod)
    ensures Derives(desired.spec, Stored(desired).spec)
  {
  }

  lemma DerivesStringsTrans(a: seq<string>, b: seq<string>, c: seq<string>)
    requires DerivesStrings(a, b) && DerivesStrings(b, c)
    ensures DerivesStrings(a, c)
  {
    forall i | 0 <= i < |a| ensures DerivesString(a[i], c[i]) {
      assert DerivesString(a[i], b[i]) && DerivesString(b[i], c[i]);
    }
  }

  /** A pod that passes the test goes on passing it, whatever unset fields are filled in or list entries appended. */
  lemma StillDerives(wanted: PodSpec, stored: PodSpec, later: PodSpec)
    requires Derives(wanted, stored) && Derives(stored, later)
    ensures Derives(wanted, later)
  {
    forall i | 0 <= i < |wanted.containers| ensures DerivesContainer(wanted.containers[i], later.containers[i]) {
      var a, b, c := wanted.containers[i], stored.containers[i], later.containers[i];
      assert DerivesContainer(wanted.containers[i], stored.containers[i]);
      assert DerivesContainer(stored.containers[i], later.containers[i]);
      DerivesStringsTrans(a.command, b.command, c.command);
      DerivesStringsTrans(a.args, b.args, c.args);
    }
    DerivesStringsTrans(wanted.hostPaths, stored.hostPaths, later.hostPaths);
  }

  // ---------------------------------------------------------------- deadlines

  /** HelperConfig.validate. */
  predicate ValidConfig(c: HelperConfig) {
    && c.commandTimeout > 0
    && c.podTimeout > c.commandTimeout
    && c.thinPoolCreateTimeout > 0
    && c.thinPoolPodTimeout > c.thinPoolCreateTimeout
    && c.maxActive > 0
  }

  /** DefaultHelperConfig. */
  const DEFAULT_CONFIG := HelperConfig(180 * SECOND, 210 * SECOND, 900 * SECOND, 1080 * SECOND, 3)

  /** Whole seconds are rounded up: the least number of seconds that covers the duration. */
  lemma DurationSecondsIsCeiling(duration: int)
    requires duration > 0
    ensures (DurationSeconds(duration) - 1) * SECOND < duration <= DurationSeconds(duration) * SECOND
  {
  }

  /** The pod outlives the command it was sized for: pool creation for a dm-thin create, an ordinary one otherwise. */
  lemma DeadlineExceedsTimeout(p: Params, args: seq<string>, show: int -> string)
    requires ValidConfig(p.config)
    ensures var deadline := NewHelperPod(p, args, show).spec.deadline * SECOND;
            if p.action.CreateVolume? && p.lvmType == DM_THIN
            then deadline > p.config.thinPoolCreateTimeout
            else deadline > p.config.commandTimeout
  {
    DurationSecondsIsCeiling(PodTimeout(p));
  }

  /** A dm-thin snapshot is restored within its group by taking a snapshot of it: there is nothing to prepare. */
  predicate RestoresInPlace(p: Params) {
    match p.action
    case CloneVolume(_, Some(src)) =>
      HasPrefix(src.lvName, SNAPSHOTTER_LV) && src.lvmType == DM_THIN && p.lvmType == DM_THIN && src.vgName == p.vgName
    case _ => false
  }

  /** Whether the helper may have to create a thin pool: it creates a dm-thin volume, empty or to copy into. */
  predicate PreparesPool(p: Params) {
    p.lvmType == DM_THIN && (p.action.CreateVolume? || (p.action.CloneVolume? && !RestoresInPlace(p)))
  }

  /** The longest that any one command of the helper may take before it times out. */
  function Needed(p: Params): int {
    if PreparesPool(p) && p.config.thinPoolCreateTimeout > p.config.commandTimeout
    then p.config.thinPoolCreateTimeout else p.config.commandTimeout
  }

  function RoundedUp(duration: int): int {
    (duration + SECOND - 1) / SECOND * SECOND
  }

  /** How long the pod of a request may run. */
  function Deadline(p: Params, args: seq<string>, show: int -> string): int {
    NewHelperPod(p, args, show).spec.deadline * SECOND
  }

  lemma DeadlineRounded(p: Params, args: seq<string>, show: int -> string)
    requires ValidConfig(p.config)
    ensures Deadline(p, args, show) == RoundedUp(PodTimeout(p))
  {
    DurationSecondsIsCeiling(PodTimeout(p));
    CeilingUnique(PodTimeout(p), DurationSeconds(PodTimeout(p)));
  }

  lemma CeilingUnique(duration: int, seconds: int)
    requires (seconds - 1) * SECOND < duration <= seconds * SECOND
    ensures RoundedUp(duration) == seconds * SECOND
  {
  }

  /** The pod outlives each of its commands exactly if the bound that validate leaves out holds, when it needs one. */
  lemma DeadlineCovers(p: Params, args: seq<string>, show: int -> string)
    requires ValidConfig(p.config)
    ensures Deadline(p, args, show) > Needed(p) <==>
              (PreparesPool(p) ==>
                if p.action.CreateVolume? then RoundedUp(p.config.thinPoolPodTimeout) > p.config.commandTimeout
                else RoundedUp(p.config.podTimeout) > p.config.thinPoolCreateTimeout)
  {
    DeadlineRounded(p, args, show);
    DurationSecondsIsCeiling(p.config.podTimeout);
    CeilingUnique(p.config.podTimeout, DurationSeconds(p.config.podTimeout));
    DurationSecondsIsCeiling(p.config.thinPoolPodTimeout);
    CeilingUnique(p.config.thinPoolPodTimeout, DurationSeconds(p.config.thinPoolPodTimeout));
  }

  /** A configuration under which every helper outlives each of its commands: the two bounds that validate leaves out. */
  lemma ConfigCovers(config: HelperConfig, show: int -> string)
    requires ValidConfig(config)
    ensures (forall p: Params, args | p.config == config && HelperArgs(p) == Some(args) ::
               Deadline(p, args, show) > Needed(p))
       <==> && RoundedUp(config.thinPoolPodTimeout) > config.commandTimeout
            && RoundedUp(config.podTimeout) > config.thinPoolCreateTimeout
  {
    forall p: Params, args | p.config == config && HelperArgs(p) == Some(args)
      ensures Deadline(p, args, show) > Needed(p) <==>
                (PreparesPool(p) ==>
                  if p.action.CreateVolume? then RoundedUp(config.thinPoolPodTimeout) > config.commandTimeout
                  else RoundedUp(config.podTimeout) > config.thinPoolCreateTimeout)
    {
      DeadlineCovers(p, args, show);
    }
    var create, clone := ThinCreate(config), ThinClone(config);
    assert HelperArgs(create) == Some(HelperArgs(create).value) && HelperArgs(clone) == Some(HelperArgs(clone).value);
  }

  function ThinCreate(config: HelperConfig): (p: Params)
    ensures p.config == config && p.action.CreateVolume? && PreparesPool(p) && HelperArgs(p).Some?
  {
    Params(CreateVolume(1), "b", "node", "vg", DM_THIN, "/w", "image", "Always", config)
  }

  /** A striped volume of one group is cloned to a dm-thin volume of another, where there need not be a pool. */
  function ThinClone(config: HelperConfig): (p: Params)
    ensures p.config == config && p.action.CloneVolume? && PreparesPool(p) && HelperArgs(p).Some?
  {
    Params(CloneVolume(1, Some(Source("a", "vg1", STRIPED))), "b", "node", "vg2", DM_THIN, "/w", "image", "Always", config)
  }

  /** The defaults: a clone may have to create a pool, yet its pod ends before pool creation times out. */
  lemma CloneDeadlineMayBeShort(show: int -> string) returns (p: Params)
    ensures p.config == DEFAULT_CONFIG && ValidConfig(p.config)
    ensures p.action.CloneVolume? && PreparesPool(p) && HelperArgs(p).Some? && Validated(p)
    ensures Deadline(p, HelperArgs(p).value, show) < p.config.thinPoolCreateTimeout
  {
    p := ThinClone(DEFAULT_CONFIG);
  }

  /** The bounds for thin pools may lie below those for other commands: then a dm-thin create can be cut short, too. */
  lemma CreateDeadlineMayBeShort(show: int -> string) returns (p: Params)
    ensures ValidConfig(p.config) && p.action.CreateVolume? && PreparesPool(p) && HelperArgs(p).Some? && Validated(p)
    ensures Deadline(p, HelperArgs(p).value, show) < p.config.commandTimeout
  {
    p := ThinCreate(HelperConfig(3600 * SECOND, 7200 * SECOND, 60 * SECOND, 120 * SECOND, 3));
  }
}
