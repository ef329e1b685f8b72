/** What holds over whole sequences of operations on a node's volumes, of every kind and with every outcome. */
module LvmRuns {
  import opened Wrappers
  import opened LvmTable
  import opened LvmSpec
  import opened LvmSnapshotSpec
  import opened DriverNames
  import opened Text

  /**
   One call of an operation with its result. Delete is a volume's or a snapshot's. A helper can be killed at any
   moment: a delete may stop half-way, a snapshot or extension cut off looks like one that timed out, and CutOff is a
   create cut off in the middle of one of its commands, with some of that command's work done, or before the first.
   */
  datatype Operation =
    | Create(k: Key, size: nat, ty: VolumeType, created: CreateResult)
    | CutOff(k: Key, size: nat, ty: VolumeType, during: Option<Event>, work: Work, slack: nat)
    | Snapshot(vg: string, handle: string, forClone: bool, src: string, space: int, ty: VolumeType, taken: SnapshotResult)
    | Delete(k: Key, dmThin: bool)
    | Extend(name: string, size: nat, extended: ExtendResult, issued: bool)

  ghost predicate Performs(before: Table, after: Table, op: Operation) {
    match op
    case Create(k, size, ty, r) => CreateSpec(before, after, k, size, ty, r)
    case CutOff(k, size, ty, None, _, _) => after == before
    case CutOff(k, size, ty, Some(e), work, slack) =>
      WellFormed(before) && CreateEvent(before, e, k, size, ty) && after == TableAfter(e.met, e.command, Outcome(TimedOut(work), slack))
    case Snapshot(vg, handle, forClone, src, space, ty, r) =>
      SnapshotSpec(before, after, vg, SnapshotLV(handle, forClone), src, space, ty, r)
    case Delete(k, dmThin) => after == before || after == WithoutVolume(before, k) || after == Deleted(before, k, dmThin)
    case Extend(name, size, r, issued) => ExtendSpec(before, after, name, size, r, issued)
  }

  /** The tables met by a sequence of operations, one after another. */
  ghost predicate OperationRun(tables: seq<Table>, ops: seq<Operation>) {
    && |tables| == |ops| + 1
    && forall i | 0 <= i < |ops| :: Performs(tables[i], tables[i + 1], ops[i])
  }

  /** The command prepares a pool: it creates one, or removes half of one. */
  predicate PreparesPool(c: Command) {
    c.CreatePool? || c.Remove?
  }

  /** Puts nothing but a pool under the pool's name, and neither fails to roll back a pool nor is killed preparing one. */
  predicate SparesPool(op: Operation, vg: string) {
    match op
    case Create(k, _, ty, r) =>
      if ty.DmThinVolume? then k.vg == vg ==> r != Err(PoolTimedOut(false)) else k != PoolKey(vg)
    case CutOff(k, _, ty, during, _, _) =>
      if ty.DmThinVolume? then k.vg == vg && during.Some? ==> !PreparesPool(during.value.command) else k != PoolKey(vg)
    case Snapshot(group, handle, forClone, _, _, _, _) => Key(group, SnapshotLV(handle, forClone)) != PoolKey(vg)
    case _ => true
  }

  /** Removing a volume changes the segment type of no other. */
  lemma DeleteKeepsTypes(t: Table, k: Key, dmThin: bool, j: Key)
    requires j in Deleted(t, k, dmThin)
    ensures j in t && Deleted(t, k, dmThin)[j].segType == t[j].segType
  {
  }

  lemma CutOffKeepsClean(before: Table, after: Table, op: Operation, vg: string)
    requires op.CutOff? && op.during.Some?
    requires Performs(before, after, op) && SparesPool(op, vg) && PoolClean(before, vg)
    ensures PoolClean(after, vg)
  {
    var e := op.during.value;
    match e.command
    case CreateThin(_, _, _) => assert OnlyGains(before, e.met, {PoolKey(op.k.vg)});
    case _ =>
  }

  lemma PoolWorkGains(before: Table, e: Event, vg: string, o: Outcome)
    requires WellFormed(before) && PoolEvent(before, e, vg)
    ensures OnlyGains(before, TableAfter(e.met, e.command, o), {PoolKey(vg)})
  {
    if e.command.Remove? && e.met != before {
      HalfPoolGoesAlone(before, vg, e.met[PoolKey(vg)]);
    }
  }

  /** What a create that is cut off leaves: everything that was there, and at most the new volume and a pool. */
  lemma CutOffGains(before: Table, after: Table, op: Operation)
    requires op.CutOff? && Performs(before, after, op)
    ensures OnlyGains(before, after, CreatedKeys(op.k, op.ty))
  {
    if op.during.Some? {
      var e := op.during.value;
      if PreparesPool(e.command) {
        PoolWorkGains(before, e, op.k.vg, Outcome(TimedOut(op.work), op.slack));
      }
    }
  }

  lemma PoolCleanStep(before: Table, after: Table, op: Operation, vg: string)
    requires Performs(before, after, op) && SparesPool(op, vg) && PoolClean(before, vg)
    ensures PoolClean(after, vg)
  {
    match op
    case Create(k, _, ty, _) => assert OnlyGains(before, after, CreatedKeys(k, ty));
    case CutOff(k, size, ty, Some(e), work, slack) => CutOffKeepsClean(before, after, op, vg);
    case CutOff(_, _, _, None, _, _) =>
    case Snapshot(group, handle, forClone, _, _, _, _) =>
      assert OnlyGains(before, after, {Key(group, SnapshotLV(handle, forClone))});
    case Delete(k, dmThin) =>
      if PoolKey(vg) in Deleted(before, k, dmThin) { DeleteKeepsTypes(before, k, dmThin, PoolKey(vg)); }
    case Extend(_, _, _, _) =>
  }

  /**
   Among operations of any kind in any group, no create ever meets an incomplete pool in a group that was clean, as
   long as rollbacks in the group succeed, no helper is killed while it prepares the group's pool, and nobody asks for
   a volume or snapshot under the pool's name.
   */
  lemma {:induction false} NeverIncomplete(tables: seq<Table>, ops: seq<Operation>, vg: string, n: nat)
    requires OperationRun(tables, ops) && PoolClean(tables[0], vg) && n <= |ops|
    requires forall i | 0 <= i < n :: SparesPool(ops[i], vg)
    ensures PoolClean(tables[n], vg)
    ensures n < |ops| && ops[n].Create? && ops[n].k.vg == vg ==> ops[n].created != Err(PoolIncomplete)
  {
    if n > 0 {
      NeverIncomplete(tables, ops, vg, n - 1);
      PoolCleanStep(tables[n - 1], tables[n], ops[n - 1], vg);
    }
    assert n < |ops| ==> Performs(tables[n], tables[n + 1], ops[n]);
  }

  /** A helper killed in the middle of pool creation leaves half a pool, and nothing rolls it back. */
  lemma CutOffLeavesHalf(before: Table, k: Key, size: nat, slack: nat) returns (after: Table, op: Operation)
    requires WellFormed(before) && PoolKey(k.vg) !in before && k !in before
    ensures op.CutOff? && op.k == k && Performs(before, after, op)
    ensures PoolClean(before, k.vg) && !PoolClean(after, k.vg)
  {
    op := CutOff(k, size, DmThinVolume, Some(Event(CreatePool(k.vg), before)), Half, slack);
    after := before[PoolKey(k.vg) := HalfPool(slack)];
  }

  /** A pool creation that timed out and was not rolled back leaves half a pool as well. */
  lemma FailedRollbackLeavesHalf(before: Table, k: Key, size: nat, slack: nat) returns (after: Table)
    requires PoolKey(k.vg) !in before && k !in before && size > 0
    ensures Performs(before, after, Create(k, size, DmThinVolume, Err(PoolTimedOut(false))))
    ensures PoolClean(before, k.vg) && !PoolClean(after, k.vg)
  {
    after := before[PoolKey(k.vg) := HalfPool(slack)];
  }

  /** A striped volume can be created under the pool's name, and is not a pool. */
  lemma VolumeTakesPoolName(before: Table, vg: string, size: nat) returns (after: Table)
    requires PoolKey(vg) !in before && size > 0
    ensures Performs(before, after, Create(PoolKey(vg), size, StripedVolume, Ok(())))
    ensures PoolClean(before, vg) && !PoolClean(after, vg)
  {
    after := before[PoolKey(vg) := LV(size, Striped, "", "", true, true)];
  }

  /** A snapshot helper can take the pool's name too, if that begins like a snapshot LV's, as in a group "lvm". */
  lemma SnapshotNamesPool(handle: string, vg: string)
    ensures SnapshotLV(handle, false) == PoolKey(vg).name <==>
              HasPrefix(vg + "-thinpool", SNAPSHOT_LV) && handle == (vg + "-thinpool")[|SNAPSHOT_LV|..]
  {
    var pool := vg + "-thinpool";
    if SNAPSHOT_LV + handle == pool {
      assert pool[..|SNAPSHOT_LV|] == SNAPSHOT_LV && pool[|SNAPSHOT_LV|..] == handle;
    }
    if HasPrefix(pool, SNAPSHOT_LV) {
      assert pool == SNAPSHOT_LV + pool[|SNAPSHOT_LV|..];
    }
  }

  lemma GrowStep(before: Table, after: Table, op: Operation, j: Key)
    requires Performs(before, after, op) && !op.Delete? && j in before
    ensures j in after && after[j].size >= before[j].size && after[j] == before[j].(size := after[j].size)
  {
    match op
    case Create(k, _, ty, _) => assert OnlyGains(before, after, CreatedKeys(k, ty));
    case CutOff(_, _, _, _, _, _) => CutOffGains(before, after, op);
    case Snapshot(group, handle, forClone, _, _, _, _) =>
      assert OnlyGains(before, after, {Key(group, SnapshotLV(handle, forClone))});
    case Extend(name, size, r, issued) => ExtendNeverShrinks(before, after, name, size, r, issued, j);
  }

  /** As long as nothing is deleted, a volume stays as it is except that it may grow. */
  lemma {:induction false} VolumesOnlyGrow(tables: seq<Table>, ops: seq<Operation>, m: nat, n: nat, j: Key)
    requires OperationRun(tables, ops) && m <= n < |tables| && j in tables[m]
    requires forall i | m <= i < n :: !ops[i].Delete?
    ensures j in tables[n] && tables[n][j].size >= tables[m][j].size
    ensures tables[n][j] == tables[m][j].(size := tables[n][j].size)
  {
    if m < n {
      VolumesOnlyGrow(tables, ops, m, n - 1, j);
      GrowStep(tables[n - 1], tables[n], ops[n - 1], j);
    }
  }
}
