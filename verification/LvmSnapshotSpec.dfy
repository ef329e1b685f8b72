/** What taking and deleting snapshots and extending volumes promise about the table. */
module LvmSnapshotSpec {
  import opened Wrappers
  import opened LvmTable
  import opened LvmSpec
  import opened DriverNames

  // ---------------------------------------------------------------- snapshots

  datatype SnapshotError =
    | SnapshotBadRequest | SnapshotQueryFailed | NoSource | OtherOrigin | UnsupportedType
    | SnapshotFailed | SnapshotTimedOut

  type SnapshotResult = Result<(), SnapshotError>

  /** The LV that stands for a snapshot handle; names that begin with "snapshot" are LVM's own. */
  function SnapshotLV(handle: string, forClone: bool): string {
    if forClone then handle else SNAPSHOT_LV + handle
  }

  /** A thin snapshot shares its source's pool and size; a thick one has at least the space asked for. */
  ghost predicate NewSnapshot(lv: LV, source: LV, src: string, size: int, ty: VolumeType) {
    && lv.origin == src
    && match ty
       case StripedVolume => lv.segType.Linear? && lv.size >= size
       case DmThinVolume => source.segType.Thin? && lv == source.(origin := src)
       case UnknownVolume => false
  }

  ghost predicate SnapshotSpec(before: Table, after: Table, vg: string, name: string, src: string, size: int,
                               ty: VolumeType, r: SnapshotResult)
  {
    var k := Key(vg, name);
    && OnlyGains(before, after, {k})
    && (k in before ==> after == before)
    && (r.Ok? ==> Key(vg, src) in before && k in after && after[k].origin == src)
    && (r.Err? && !r.error.SnapshotTimedOut? ==> after == before)
    && (k !in before && k in after ==> Key(vg, src) in before && NewSnapshot(after[k], before[Key(vg, src)], src, size, ty))
    && (r == Err(OtherOrigin) ==> k in before && before[k].origin != src)
    && (r == Err(NoSource) ==> Key(vg, src) !in before)
    && (Key(vg, src) in before && k in before && before[k].origin == src ==>
          r.Ok? || r.error.SnapshotBadRequest? || r.error.SnapshotQueryFailed?)
    && (r == Err(SnapshotBadRequest) ==> src == "" || name == "" || name == SNAPSHOT_LV || size == 0)
  }

  /** A snapshot that was taken, even if its caller was told of a timeout, is found by the next attempt. */
  lemma SnapshotRetry(t0: Table, t1: Table, t2: Table, vg: string, name: string, src: string, size: int, ty: VolumeType,
                      r1: SnapshotResult, r2: SnapshotResult)
    requires src != "" && name != "" && name != SNAPSHOT_LV && size != 0
    requires SnapshotSpec(t0, t1, vg, name, src, size, ty, r1)
    requires r1.Ok? || (Key(vg, name) in t1 && Key(vg, name) !in t0)
    requires SnapshotSpec(t1, t2, vg, name, src, size, ty, r2)
    ensures t2 == t1 && (r2.Ok? || r2 == Err(SnapshotQueryFailed))
  {
    assert t1[Key(vg, src)] == t0[Key(vg, src)];
  }

  /** An LV of the snapshot's name with another origin is never accepted, and never touched. */
  lemma OtherOriginRefused(t0: Table, t1: Table, vg: string, name: string, src: string, size: int, ty: VolumeType,
                           r: SnapshotResult)
    requires SnapshotSpec(t0, t1, vg, name, src, size, ty, r)
    requires Key(vg, name) in t0 && t0[Key(vg, name)].origin != src
    ensures r.Err? && t1 == t0
  {
  }

  /** Deleting a snapshot undoes taking it, for a name that was free. */
  lemma SnapshotThenDelete(before: Table, after: Table, vg: string, name: string, src: string, size: int,
                           ty: VolumeType, r: SnapshotResult)
    requires WellFormed(before) && WellFormed(after) && Key(vg, name) !in before
    requires SnapshotSpec(before, after, vg, name, src, size, ty, r)
    ensures WithoutVolume(after, Key(vg, name)) == before
  {
    var k := Key(vg, name);
    if k in after {
      assert WellFormedAt(after, k);
      AbsentUnused(before, k);
      forall j | j in after && j.vg == vg
        ensures after[j].origin != name && (after[j].segType.Thin? ==> after[j].pool != name)
      {
        assert WellFormedAt(after, j);
        if j == k { assert WellFormedAt(before, Key(vg, src)); }
      }
      RemovedUnused(after, k);
    }
  }

  // ---------------------------------------------------------------- extending

  datatype ExtendError = ExtendQueryFailed | NoSuchVolume | Ambiguous | ExtendFailed | ProbeFailed | NoResize | ResizeFailed

  type ExtendResult = Result<(), ExtendError>

  ghost predicate UniqueName(t: Table, k: Key) {
    k in t && forall j | j in t && j.name == k.name :: j == k
  }

  predicate BeforeExtend(r: ExtendResult) {
    r.Err? && (r.error.ExtendQueryFailed? || r.error.NoSuchVolume? || r.error.Ambiguous?)
  }

  /** The call acted on k: lvextend ran exactly if k was too small, and nothing but the size of k may have grown. */
  ghost predicate ExtendAt(before: Table, after: Table, k: Key, size: nat, r: ExtendResult, issued: bool) {
    && UniqueName(before, k)
    && (issued <==> before[k].size < size)
    && (after == before
        || (issued && k in after && after[k].size >= size && after == before[k := before[k].(size := after[k].size)]))
    && (r.Ok? || !r.error.ExtendFailed? ==> k in after && after[k].size >= size)
  }

  /** issued: whether the call ran lvextend. */
  ghost predicate ExtendSpec(before: Table, after: Table, name: string, size: nat, r: ExtendResult, issued: bool) {
    if BeforeExtend(r) then
      && after == before && !issued
      && (r.error.NoSuchVolume? ==> forall j | j in before :: j.name != name)
      && (r.error.Ambiguous? ==> forall j: Key | j.name == name :: !UniqueName(before, j))
    else
      exists k: Key | k.name == name :: ExtendAt(before, after, k, size, r, issued)
  }

  /** No volume shrinks or disappears, and only a volume whose name is unique on the node changes. */
  lemma ExtendNeverShrinks(before: Table, after: Table, name: string, size: nat, r: ExtendResult, issued: bool, j: Key)
    requires ExtendSpec(before, after, name, size, r, issued) && j in before
    ensures j in after && after[j].size >= before[j].size && after[j] == before[j].(size := after[j].size)
    ensures after[j] != before[j] ==> j.name == name && UniqueName(before, j) && before[j].size < size <= after[j].size
  {
  }

  /** Once the LV has its size, a retry runs no second lvextend, whatever became of the filesystem resize. */
  lemma NoSecondExtend(t0: Table, t1: Table, t2: Table, name: string, size: nat, r1: ExtendResult, r2: ExtendResult,
                       issued1: bool, issued2: bool)
    requires ExtendSpec(t0, t1, name, size, r1, issued1) && ExtendSpec(t1, t2, name, size, r2, issued2)
    requires r1.Ok? || r1.error.ProbeFailed? || r1.error.NoResize? || r1.error.ResizeFailed?
    ensures !issued2 && t2 == t1
  {
  }
}
