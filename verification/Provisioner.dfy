/**
 The program that a helper pod runs: it reads its command line back into a job, and does the job on the node's
 volumes. Reading back inverts what the controller built.
 */
module Provisioner {
  import opened Wrappers
  import opened Text
  import opened DriverNames
  import opened HelperPods
  import opened HelperPodFacts
  import opened LvmTable
  import opened LvmSpec
  import opened LvmSnapshotSpec
  import opened LvmBackend

  datatype Job =
    | CreateLV(vg: string, name: string, size: nat, lvmType: string)
    | DeleteLV(vg: string, name: string, srcType: string)
    | CloneLV(srcVG: string, srcName: string, srcType: string, vg: string, name: string, size: nat, lvmType: string)
    | CreateSnap(vg: string, name: string, src: string, space: int, lvmType: string)
    | DeleteSnap(vg: string, name: string)

  // ---------------------------------------------------------------- the command line

  /** The value of a flag in a list of flags and values; of repeated flags the last one counts. */
  function FlagValue(args: seq<string>, flag: string): Option<string> {
    if |args| < 2 then None
    else
      var later := FlagValue(args[2..], flag);
      if later.Some? then later else if args[0] == flag then Some(args[1]) else None
  }

  /** A flag that is not given is empty. */
  function Flag(args: seq<string>, flag: string): string {
    match FlagValue(args, flag)
    case Some(v) => v
    case None => ""
  }

  /** The job of a verb and its flags; None for what the program refuses to parse. */
  function ParseJob(args: seq<string>): Option<Job> {
    if args == [] then None
    else
      var flags := args[1..];
      if args[0] == "createlv" then
        match ParseUint64(Flag(flags, "--lvsize"))
        case None => None
        case Some(size) => Some(CreateLV(Flag(flags, VG_FLAG), Flag(flags, "--lvname"), size, Flag(flags, "--lvmtype")))
      else if args[0] == "deletelv" then
        Some(DeleteLV(Flag(flags, SRC_VG_FLAG), Flag(flags, "--lvname"), Flag(flags, "--srctype")))
      else if args[0] == "clonelv" then
        match ParseUint64(Flag(flags, "--lvsize"))
        case None => None
        case Some(size) =>
          Some(CloneLV(Flag(flags, SRC_VG_FLAG), Flag(flags, "--srclvname"), Flag(flags, "--srctype"),
                       Flag(flags, VG_FLAG), Flag(flags, "--lvname"), size, Flag(flags, "--lvmtype")))
      else if args[0] == "createsnap" then
        match ParseInt64(Flag(flags, "--lvsize"))
        case None => None
        case Some(space) =>
          Some(CreateSnap(Flag(flags, VG_FLAG), Flag(flags, "--snapname"), Flag(flags, "--lvname"), space,
                          Flag(flags, "--lvmtype")))
      else if args[0] == "deletesnap" then
        Some(DeleteSnap(Flag(flags, VG_FLAG), Flag(flags, "--snapname")))
      else None
  }

  /** The global flags come first, one word each. */
  function ParseCommandLine(args: seq<string>): Option<Job> {
    if args != [] && HasPrefix(args[0], "--") then ParseCommandLine(args[1..]) else ParseJob(args)
  }

  /** The job that a request is about. */
  function JobOf(p: Params): Option<Job> {
    match p.action
    case CreateVolume(size) => if 0 <= size <= MAX_INT64 then Some(CreateLV(p.vgName, p.name, size, p.lvmType)) else None
    case DeleteVolume(Some(src)) => Some(DeleteLV(src.vgName, p.name, src.lvmType))
    case CloneVolume(size, Some(src)) =>
      if 0 <= size <= MAX_INT64
      then Some(CloneLV(src.vgName, src.lvName, src.lvmType, p.vgName, p.name, size, p.lvmType)) else None
    case CreateSnapshot(srcVolume, space) =>
      if MIN_INT64 <= space <= MAX_INT64 then Some(CreateSnap(p.vgName, p.name, srcVolume, space, p.lvmType)) else None
    case DeleteSnapshot => Some(DeleteSnap(p.vgName, p.name))
    case _ => None
  }

  /** The flag at position i of a list of flags and values. */
  predicate FlagAt(args: seq<string>, i: nat, flag: string) {
    2 * i + 1 < |args| && args[2 * i] == flag
  }

  lemma {:induction false} FlagAbsent(args: seq<string>, flag: string)
    requires forall i :: !FlagAt(args, i, flag)
    ensures FlagValue(args, flag) == None
  {
    if |args| >= 2 {
      assert !FlagAt(args, 0, flag);
      forall i: nat ensures !FlagAt(args[2..], i, flag) {
        assert !FlagAt(args, i + 1, flag);
      }
      FlagAbsent(args[2..], flag);
    }
  }

  lemma {:induction false} FlagFound(args: seq<string>, i: nat, flag: string)
    requires FlagAt(args, i, flag)
    requires forall j :: i < j ==> !FlagAt(args, j, flag)
    ensures FlagValue(args, flag) == Some(args[2 * i + 1])
  {
    forall j: nat ensures FlagAt(args[2..], j, flag) <==> FlagAt(args, j + 1, flag) { }
    if i == 0 {
      FlagAbsent(args[2..], flag);
    } else {
      FlagFound(args[2..], i - 1, flag);
      assert args[2..][2 * (i - 1) + 1] == args[2 * i + 1];
    }
  }

  lemma FlagsDiffer()
    ensures "--lvname" != "--lvsize" && "--lvname" != VG_FLAG && "--lvsize" != VG_FLAG
    ensures "--lvmtype" != "--srctype" && "--srclvname" != SRC_VG_FLAG
  {
    assert "--lvname"[4] == 'n' && "--lvsize"[4] == 's' && "--lvname"[2] == 'l' && "--lvsize"[2] == 'l' && VG_FLAG[2] == 'v';
    assert "--lvmtype"[2] == 'l' && "--srctype"[2] == 's' && "--srclvname"[5] == 'l' && SRC_VG_FLAG[5] == 'v';
  }

  lemma VerbsDiffer()
    ensures "createlv" != "deletelv" && "createsnap" != "deletesnap"
  {
    assert "createlv"[0] == 'c' && "deletelv"[0] == 'd' && "createsnap"[0] == 'c' && "deletesnap"[0] == 'd';
  }

  lemma CreateParses(p: Params)
    requires p.action.CreateVolume? && HelperArgs(p).Some? && JobOf(p).Some?
    ensures ParseJob(HelperArgs(p).value) == JobOf(p)
  {
    FlagsDiffer();
    FormatParseUint(p.action.size);
    var flags := HelperArgs(p).value[1..];
    FlagFound(flags, 0, "--lvsize");
    FlagFound(flags, 1, "--lvmtype");
    FlagFound(flags, 2, VG_FLAG);
    FlagFound(flags, 3, "--lvname");
  }

  lemma DeleteParses(p: Params)
    requires p.action.DeleteVolume? && HelperArgs(p).Some? && JobOf(p).Some?
    ensures ParseJob(HelperArgs(p).value) == JobOf(p)
  {
    FlagsDiffer();
    VerbsDiffer();
    var flags := HelperArgs(p).value[1..];
    FlagFound(flags, 0, SRC_VG_FLAG);
    FlagFound(flags, 1, "--srctype");
    FlagFound(flags, 2, "--lvname");
  }

  lemma CloneParses(p: Params)
    requires p.action.CloneVolume? && HelperArgs(p).Some? && JobOf(p).Some?
    ensures ParseJob(HelperArgs(p).value) == JobOf(p)
  {
    var src := p.action.source.value;
    FormatParseUint(p.action.size);
    CloneFlagValues(HelperArgs(p).value[1..], src, FormatInt(p.action.size), p);
  }

  lemma CloneFlagValues(flags: seq<string>, src: Source, size: string, p: Params)
    requires flags == ["--srclvname", src.lvName, SRC_VG_FLAG, src.vgName, "--srctype", src.lvmType]
                      + ["--lvsize", size, VG_FLAG, p.vgName, "--lvmtype", p.lvmType, "--lvname", p.name]
    ensures Flag(flags, "--srclvname") == src.lvName && Flag(flags, SRC_VG_FLAG) == src.vgName
    ensures Flag(flags, "--srctype") == src.lvmType
    ensures Flag(flags, "--lvsize") == size && Flag(flags, VG_FLAG) == p.vgName
    ensures Flag(flags, "--lvmtype") == p.lvmType && Flag(flags, "--lvname") == p.name
  {
    SourceFlagValues(flags, src, size, p);
    FlagsDiffer();
    FlagFound(flags, 3, "--lvsize");
    FlagFound(flags, 4, VG_FLAG);
    FlagFound(flags, 5, "--lvmtype");
    FlagFound(flags, 6, "--lvname");
  }

  lemma SourceFlagValues(flags: seq<string>, src: Source, size: string, p: Params)
    requires flags == ["--srclvname", src.lvName, SRC_VG_FLAG, src.vgName, "--srctype", src.lvmType]
                      + ["--lvsize", size, VG_FLAG, p.vgName, "--lvmtype", p.lvmType, "--lvname", p.name]
    ensures Flag(flags, "--srclvname") == src.lvName && Flag(flags, SRC_VG_FLAG) == src.vgName
    ensures Flag(flags, "--srctype") == src.lvmType
  {
    FlagsDiffer();
    FlagFound(flags, 0, "--srclvname");
    FlagFound(flags, 1, SRC_VG_FLAG);
    FlagFound(flags, 2, "--srctype");
  }

  lemma CreateSnapshotParses(p: Params)
    requires p.action.CreateSnapshot? && HelperArgs(p).Some? && JobOf(p).Some?
    ensures ParseJob(HelperArgs(p).value) == JobOf(p)
  {
    FormatParse(p.action.snapSize);
    SnapshotFlagValues(HelperArgs(p).value[1..], FormatInt(p.action.snapSize), p);
  }

  lemma SnapshotFlagValues(flags: seq<string>, size: string, p: Params)
    requires p.action.CreateSnapshot?
    requires flags == ["--snapname", p.name, "--lvname", p.action.srcVolume, VG_FLAG, p.vgName]
                      + ["--lvsize", size, "--lvmtype", p.lvmType]
    ensures Flag(flags, "--snapname") == p.name && Flag(flags, "--lvname") == p.action.srcVolume
    ensures Flag(flags, VG_FLAG) == p.vgName && Flag(flags, "--lvsize") == size && Flag(flags, "--lvmtype") == p.lvmType
  {
    FlagsDiffer();
    FlagFound(flags, 0, "--snapname");
    FlagFound(flags, 1, "--lvname");
    FlagFound(flags, 2, VG_FLAG);
    FlagFound(flags, 3, "--lvsize");
    FlagFound(flags, 4, "--lvmtype");
  }

  lemma DeleteSnapshotParses(p: Params)
    requires p.action.DeleteSnapshot? && HelperArgs(p).Some?
    ensures ParseJob(HelperArgs(p).value) == JobOf(p)
  {
    VerbsDiffer();
    var flags := HelperArgs(p).value[1..];
    FlagFound(flags, 0, "--snapname");
    FlagFound(flags, 1, VG_FLAG);
  }

  lemma ArgumentsParse(p: Params)
    requires HelperArgs(p).Some? && JobOf(p).Some?
    ensures ParseJob(HelperArgs(p).value) == JobOf(p)
  {
    match p.action
    case CreateVolume(_) => CreateParses(p);
    case DeleteVolume(_) => DeleteParses(p);
    case CloneVolume(_, _) => CloneParses(p);
    case CreateSnapshot(_, _) => CreateSnapshotParses(p);
    case DeleteSnapshot => DeleteSnapshotParses(p);
  }

  lemma VerbFirst(p: Params)
    requires HelperArgs(p).Some?
    ensures HelperArgs(p).value != [] && !HasPrefix(HelperArgs(p).value[0], "--")
  {
    assert HelperArgs(p).value[0][0] != '-';
  }

  lemma TimeoutsAreFlags(config: HelperConfig, show: int -> string)
    ensures forall flag | flag in TimeoutFlags(config, show) :: HasPrefix(flag, "--")
  {
    var flags := TimeoutFlags(config, show);
    assert flags[0][0] == '-' && flags[0][1] == '-' && flags[1][0] == '-' && flags[1][1] == '-';
  }

  /** The program reads from the pod's command line exactly the job that the controller was asked for. */
  lemma CommandLineParsesBack(p: Params, show: int -> string)
    requires HelperArgs(p).Some? && JobOf(p).Some?
    ensures ParseCommandLine(TimeoutFlags(p.config, show) + HelperArgs(p).value) == JobOf(p)
  {
    ArgumentsParse(p);
    VerbFirst(p);
    TimeoutsAreFlags(p.config, show);
    GlobalFlagsSkipped(TimeoutFlags(p.config, show), HelperArgs(p).value);
  }

  lemma {:induction false} GlobalFlagsSkipped(flags: seq<string>, args: seq<string>)
    requires forall flag | flag in flags :: HasPrefix(flag, "--")
    requires args != [] && !HasPrefix(args[0], "--")
    ensures ParseCommandLine(flags + args) == ParseJob(args)
  {
    if flags == [] {
      assert flags + args == args;
    } else {
      assert (flags + args)[1..] == flags[1..] + args;
      GlobalFlagsSkipped(flags[1..], args);
    }
  }

  // ---------------------------------------------------------------- what a job does

  function TypeOf(lvmType: string): VolumeType {
    if lvmType == STRIPED then StripedVolume else if lvmType == DM_THIN then DmThinVolume else UnknownVolume
  }

  /** A dm-thin snapshot restored within its group. */
  predicate InPlace(job: Job) {
    && job.CloneLV? && HasPrefix(job.srcName, SNAPSHOTTER_LV)
    && job.srcType == DM_THIN && job.lvmType == DM_THIN && job.srcVG == job.vg
  }

  predicate MayPreparePool(job: Job) {
    (job.CreateLV? || (job.CloneLV? && !InPlace(job))) && job.lvmType == DM_THIN
  }

  /** What a job that succeeded has made of the table. */
  ghost predicate JobDone(before: Table, after: Table, job: Job) {
    match job
    case CreateLV(vg, name, size, lvmType) => CreateSpec(before, after, Key(vg, name), size, TypeOf(lvmType), Ok(()))
    case DeleteLV(vg, name, srcType) => after == Deleted(before, Key(vg, name), srcType == DM_THIN)
    case CloneLV(_, srcName, _, vg, name, size, lvmType) =>
      if InPlace(job) then SnapshotSpec(before, after, vg, name, srcName, size, DmThinVolume, Ok(()))
      else CreateSpec(before, after, Key(vg, name), size, TypeOf(lvmType), Ok(()))
    case CreateSnap(vg, name, src, space, lvmType) =>
      SnapshotSpec(before, after, vg, SnapshotLV(name, false), src, space, TypeOf(lvmType), Ok(()))
    case DeleteSnap(vg, name) => after == WithoutVolume(before, Key(vg, SnapshotLV(name, false)))
  }

  /** What a job that failed may have made of it. */
  ghost predicate JobTried(before: Table, after: Table, job: Job) {
    || after == before
    || match job
       case CreateLV(vg, name, size, lvmType) =>
         exists r :: CreateSpec(before, after, Key(vg, name), size, TypeOf(lvmType), r)
       case DeleteLV(vg, name, srcType) =>
         || after == WithoutVolume(before, Key(vg, name))
         || after == Deleted(before, Key(vg, name), srcType == DM_THIN)
       case CloneLV(_, srcName, _, vg, name, size, lvmType) =>
         if InPlace(job) then exists r :: SnapshotSpec(before, after, vg, name, srcName, size, DmThinVolume, r)
         else exists r :: CreateSpec(before, after, Key(vg, name), size, TypeOf(lvmType), r)
       case CreateSnap(vg, name, src, space, lvmType) =>
         exists r :: SnapshotSpec(before, after, vg, SnapshotLV(name, false), src, space, TypeOf(lvmType), r)
       case DeleteSnap(vg, name) => after == WithoutVolume(before, Key(vg, SnapshotLV(name, false)))
  }

  /** The volume stands, large enough and of the type. */
  ghost predicate Provided(t: Table, vg: string, name: string, size: nat, lvmType: string) {
    && Key(vg, name) in t && t[Key(vg, name)].size >= size
    && (|| (lvmType == "dm-thin" && t[Key(vg, name)].segType == Thin)
        || (lvmType == "striped" && t[Key(vg, name)].segType in {Striped, Linear}))
  }

  /** The volume stands already, or can be made: from a group with physical volumes, and a sound pool or none. */
  ghost predicate Providable(t: Table, pvs: map<string, nat>, vg: string, name: string, size: nat, lvmType: string) {
    if Key(vg, name) in t then Provided(t, vg, name, size, lvmType)
    else
      var pool := Key(vg, vg + "-thinpool");
      && vg in pvs
      && (|| (lvmType == "striped" && pvs[vg] > 0)
          || (lvmType == "dm-thin" && Key(vg, name) != pool
              && (pool in t ==> t[pool].segType == ThinPool && t[pool].active && t[pool].healthy)))
  }

  /** A snapshot of the source stands, or can be taken: of neither a pool nor a thick snapshot, and thinly of a thin one. */
  ghost predicate Snapshottable(t: Table, vg: string, name: string, src: string, space: int, lvmType: string) {
    && Key(vg, src) in t
    && if Key(vg, name) in t then t[Key(vg, name)].origin == src
       else
         var lv := t[Key(vg, src)];
         && lv.segType != ThinPool && (lv.origin != "" ==> lv.segType == Thin)
         && ((lvmType == "striped" && space > 0) || (lvmType == "dm-thin" && lv.segType == Thin))
  }

  /** Restoring a dm-thin snapshot within its group. */
  ghost predicate WithinGroup(job: Job) {
    && job.CloneLV? && "lvm-snapshot-" <= job.srcName
    && job.srcType == "dm-thin" && job.lvmType == "dm-thin" && job.srcVG == job.vg
  }

  /** The flags that a verb demands are given, and the groups it looks for are found. */
  ghost predicate WellPosed(job: Job, host: Host) {
    match job
    case CreateLV(vg, name, size, lvmType) => "" !in {vg, name, lvmType} && size > 0 && host.groupsFound
    case DeleteLV(vg, name, srcType) => "" !in {vg, name, srcType}
    case CloneLV(srcVG, srcName, srcType, vg, name, size, lvmType) =>
      "" !in {srcVG, srcName, srcType, vg, name, lvmType} && size > 0 && host.groupsFound
    case CreateSnap(vg, name, src, space, lvmType) => "" !in {vg, name, src, lvmType} && space != 0 && host.groupsFound
    case DeleteSnap(vg, name) => "" !in {vg, name}
  }

  /** What the table must be like for the job to be possible. */
  ghost predicate Possible(t: Table, pvs: map<string, nat>, job: Job, host: Host) {
    match job
    case CreateLV(vg, name, size, lvmType) => Providable(t, pvs, vg, name, size, lvmType)
    case CloneLV(_, srcName, _, vg, name, size, lvmType) =>
      if WithinGroup(job) then Snapshottable(t, vg, name, srcName, size, "dm-thin")
      else host.opens && host.copies && Providable(t, pvs, vg, name, size, lvmType)
    case CreateSnap(vg, name, src, space, lvmType) => Snapshottable(t, vg, "lvm-" + name, src, space, lvmType)
    case _ => true
  }

  ghost predicate HoldsThin(t: Table, pool: Key) {
    exists k :: k in t && k.vg == pool.vg && t[k].segType == Thin && t[k].pool == pool.name
  }

  /** What stands and what is gone after a job that succeeded. */
  ghost predicate Effected(before: Table, after: Table, job: Job) {
    match job
    case CreateLV(vg, name, size, lvmType) => Provided(after, vg, name, size, lvmType)
    case DeleteLV(vg, name, srcType) =>
      var pool := Key(vg, vg + "-thinpool");
      && Key(vg, name) !in after
      && (pool in before && before[pool].segType == ThinPool && pool != Key(vg, name) ==>
            (pool in after <==> srcType != "dm-thin" || HoldsThin(after, pool)))
    case CloneLV(_, srcName, _, vg, name, size, lvmType) =>
      if WithinGroup(job) then Key(vg, name) in after && after[Key(vg, name)].origin == srcName
      else Provided(after, vg, name, size, lvmType)
    case CreateSnap(vg, name, src, space, lvmType) => SnapshotStands(before, after, vg, "lvm-" + name, src, space, lvmType)
    case DeleteSnap(vg, name) => Key(vg, "lvm-" + name) !in after
  }

  /** The snapshot stands with its origin; a new one is thin beside a thin source, or a volume with the space asked for. */
  ghost predicate SnapshotStands(before: Table, after: Table, vg: string, name: string, src: string, space: int,
                                 lvmType: string)
  {
    var k := Key(vg, name);
    && k in after && after[k].origin == src && Key(vg, src) in after
    && (k !in before ==>
          || (lvmType == "dm-thin" && after[k].segType == Thin && after[k].pool == after[Key(vg, src)].pool)
          || (lvmType == "striped" && after[k].segType == Linear && after[k].size >= space))
  }

  /** The pool outlives a delete unless that is dm-thin and leaves it without thin volumes. */
  lemma PoolAfterDelete(t: Table, k: Key, dmThin: bool)
    requires WellFormed(t) && PoolKey(k.vg) in t && t[PoolKey(k.vg)].segType == ThinPool && PoolKey(k.vg) != k
    ensures PoolKey(k.vg) in Deleted(t, k, dmThin) <==> !dmThin || HoldsThin(Deleted(t, k, dmThin), PoolKey(k.vg))
  {
    var pool, left := PoolKey(k.vg), WithoutVolume(t, k);
    assert WellFormedAt(t, pool);
    assert pool in left && left[pool].segType == ThinPool;
    WithoutVolumeWellFormed(t, k);
    if EmptyPool(left, k.vg) {
      EmptyPoolGoesAlone(left, k.vg);
      forall j | j in left - {pool} && j.vg == pool.vg ensures !(left[j].segType == Thin && left[j].pool == pool.name) {
        assert j !in ThinVolumes(left, k.vg, pool.name);
      }
    } else {
      var j :| j in ThinVolumes(left, k.vg, pool.name);
    }
  }

  /** What JobDone says of a job, said of the volumes. */
  lemma DoneGives(before: Table, after: Table, job: Job)
    requires WellFormed(before) && JobDone(before, after, job)
    ensures Effected(before, after, job)
  {
    match job
    case DeleteLV(vg, name, srcType) =>
      DeletedWellFormed(before, Key(vg, name), srcType == DM_THIN);
      if PoolKey(vg) in before && before[PoolKey(vg)].segType == ThinPool && PoolKey(vg) != Key(vg, name) {
        PoolAfterDelete(before, Key(vg, name), srcType == DM_THIN);
      }
    case DeleteSnap(vg, name) => WithoutVolumeWellFormed(before, Key(vg, SnapshotLV(name, false)));
    case _ =>
  }

  /** Whether the groups are found, whether both devices of a clone open, and whether its copy succeeds. */
  datatype Host = Host(groupsFound: bool, opens: bool, copies: bool)

  /** Creates the destination, by a thin snapshot where that suffices, and copies the source into it where not. */
  method RunClone(node: Node, job: Job, host: Host) returns (ok: bool)
    requires WellFormed(node.table) && job.CloneLV?
    modifies node
    ensures WellFormed(node.table)
    ensures if ok then JobDone(old(node.table), node.table, job) else JobTried(old(node.table), node.table, job)
    ensures ok ==> WellPosed(job, host) && Possible(old(node.table), old(node.pvs), job, host)
    ensures ok ==> Effected(old(node.table), node.table, job)
    ensures old(node.NoFaults()) ==> (ok <==> WellPosed(job, host) && Possible(old(node.table), old(node.pvs), job, host))
    ensures old(node.log) <= node.log
    ensures !MayPreparePool(job) ==> CreatesNoPool(node.log, |old(node.log)|)
  {
    if job.srcName == "" || job.srcVG == "" || job.srcType == "" || job.name == "" || job.vg == "" || job.lvmType == ""
       || job.size == 0 || !host.groupsFound {
      return false;
    }
    if InPlace(job) {
      var r := node.CreateSnapshot(job.name, job.srcName, job.vg, job.size, DmThinVolume, true);
      return r.Ok?;
    }
    if !host.opens {
      return false;
    }
    var r := node.CreateLVS(job.vg, job.name, job.size, TypeOf(job.lvmType));
    if TypeOf(job.lvmType) != DmThinVolume {
      OnlyThinPrepares(old(node.table), node.log, |old(node.log)|, Key(job.vg, job.name), job.size, TypeOf(job.lvmType));
    }
    return r.Ok? && host.copies;
  }

  lemma OnlyThinPrepares(before: Table, log: seq<Event>, n: nat, k: Key, size: nat, ty: VolumeType)
    requires CreateEvents(before, log, n, k, size, ty) && !ty.DmThinVolume?
    ensures CreatesNoPool(log, n)
  {
    forall i | n <= i < |log| ensures !log[i].command.CreatePool? {
      assert CreateEvent(before, log[i], k, size, ty);
    }
  }

  /** The action of each verb: empty flags are refused, then the operation decides. */
  method RunJob(node: Node, job: Job, host: Host) returns (ok: bool)
    requires WellFormed(node.table)
    modifies node
    ensures WellFormed(node.table)
    ensures if ok then JobDone(old(node.table), node.table, job) else JobTried(old(node.table), node.table, job)
    ensures ok ==> WellPosed(job, host) && Possible(old(node.table), old(node.pvs), job, host)
    ensures ok ==> Effected(old(node.table), node.table, job)
    ensures old(node.NoFaults()) ==> (ok <==> WellPosed(job, host) && Possible(old(node.table), old(node.pvs), job, host))
    // only a job that creates a dm-thin volume, empty or to copy into, ever creates a pool
    ensures old(node.log) <= node.log
    ensures !MayPreparePool(job) ==> CreatesNoPool(node.log, |old(node.log)|)
  {
    match job
    case CreateLV(vg, name, size, lvmType) =>
      if name == "" || size == 0 || vg == "" || lvmType == "" || !host.groupsFound {
        return false;
      }
      var r := node.CreateLVS(vg, name, size, TypeOf(lvmType));
      if TypeOf(lvmType) != DmThinVolume {
        OnlyThinPrepares(old(node.table), node.log, |old(node.log)|, Key(vg, name), size, TypeOf(lvmType));
      }
      return r.Ok?;
    case DeleteLV(vg, name, srcType) =>
      ok := node.DeleteLV(vg, name, srcType);
    case CloneLV(_, _, _, _, _, _, _) =>
      ok := RunClone(node, job, host);
    case CreateSnap(vg, name, src, space, lvmType) =>
      if src == "" || space == 0 || vg == "" || name == "" || lvmType == "" || !host.groupsFound {
        return false;
      }
      var r := node.CreateSnapshot(name, src, vg, space, TypeOf(lvmType), false);
      return r.Ok?;
    case DeleteSnap(vg, name) =>
      if vg == "" || name == "" {
        return false;
      }
      ok := node.DeleteSnapshot(name, vg);
  }

  // ---------------------------------------------------------------- how long its commands may take

  /** The value of a global flag: one word each, before the verb, the last one counting. */
  function GlobalFlag(args: seq<string>, prefix: string): Option<string> {
    if args == [] || !HasPrefix(args[0], "--") then None
    else
      var later := GlobalFlag(args[1..], prefix);
      if later.Some? then later else if HasPrefix(args[0], prefix) then Some(args[0][|prefix|..]) else None
  }

  /** After how long a command is given up: what the flag for it says, as the program reads durations. */
  function Limit(c: Command, args: seq<string>, read: string -> int): Option<int> {
    match GlobalFlag(args, if c.CreatePool? then "--thin-pool-create-timeout=" else "--command-timeout=")
    case Some(text) => Some(read(text))
    case None => None
  }

  /** The program works under the timeouts that the controller was configured with. */
  lemma LimitsReadBack(p: Params, show: int -> string, read: string -> int, c: Command)
    requires HelperArgs(p).Some?
    requires read(show(p.config.commandTimeout)) == p.config.commandTimeout
    requires read(show(p.config.thinPoolCreateTimeout)) == p.config.thinPoolCreateTimeout
    ensures Limit(c, TimeoutFlags(p.config, show) + HelperArgs(p).value, read)
         == Some(if c.CreatePool? then p.config.thinPoolCreateTimeout else p.config.commandTimeout)
  {
    var args := TimeoutFlags(p.config, show) + HelperArgs(p).value;
    VerbFirst(p);
    TimeoutsAreFlags(p.config, show);
    assert args[2..] == HelperArgs(p).value && args[1..][1..] == args[2..];
    var prefix := if c.CreatePool? then "--thin-pool-create-timeout=" else "--command-timeout=";
    assert args[0][2] == 'c' && args[1][2] == 't' && prefix[2] == (if c.CreatePool? then 't' else 'c');
    var i := if c.CreatePool? then 1 else 0;
    assert GlobalFlag(args[2..], prefix) == None;
    assert args[1..][0] == args[1];
    assert !HasPrefix(args[1 - i], prefix);
    assert HasPrefix(args[i], prefix);
    assert GlobalFlag(args[1..], prefix) == if i == 1 then Some(args[1][|prefix|..]) else None;
    assert args[i] == prefix + show(if c.CreatePool? then p.config.thinPoolCreateTimeout else p.config.commandTimeout);
    assert args[i][|prefix|..] == show(if c.CreatePool? then p.config.thinPoolCreateTimeout else p.config.commandTimeout);
  }

  lemma SamePreparation(p: Params)
    requires JobOf(p).Some?
    ensures PreparesPool(p) <==> MayPreparePool(JobOf(p).value)
  {
  }

  /** No command of a request's job may take longer than what its helper is said to need. */
  lemma NeededSuffices(p: Params, show: int -> string, read: string -> int, log: seq<Event>, n: nat, i: nat)
    requires HelperArgs(p).Some? && JobOf(p).Some? && n <= i < |log|
    requires !MayPreparePool(JobOf(p).value) ==> CreatesNoPool(log, n)
    requires read(show(p.config.commandTimeout)) == p.config.commandTimeout
    requires read(show(p.config.thinPoolCreateTimeout)) == p.config.thinPoolCreateTimeout
    ensures var limit := Limit(log[i].command, TimeoutFlags(p.config, show) + HelperArgs(p).value, read);
            limit.Some? && limit.value <= Needed(p)
  {
    LimitsReadBack(p, show, read, log[i].command);
    SamePreparation(p);
  }

  /** And a request said to need the time for a pool issues that command on every table without pool and volume. */
  lemma NeededIsReached(p: Params, t: Table, size: nat)
    requires PreparesPool(p) && PoolKey(p.vgName) !in t && Key(p.vgName, p.name) !in t
    ensures CreateEvent(t, Event(CreatePool(p.vgName), t), Key(p.vgName, p.name), size, DmThinVolume)
    ensures Needed(p) >= p.config.thinPoolCreateTimeout
  {
  }
}
