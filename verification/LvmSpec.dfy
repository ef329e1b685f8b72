/**
 What the volume operations promise, as relations between the table before and after. The operations
 themselves are in LvmBackend; the promises over sequences of operations are here.
 */
module LvmSpec {
  import opened Wrappers
  import opened LvmTable

  // ---------------------------------------------------------------- creating volumes

  datatype CreateError =
    | BadRequest | QueryFailed | Incompatible
    | PoolIncomplete | PoolUnhealthy | PoolFailed | PoolTimedOut(rolledBack: bool)
    | VolumeFailed | VolumeTimedOut

  type CreateResult = Result<(), CreateError>

  predicate Compatible(lv: LV, size: nat, ty: VolumeType) {
    && lv.size >= size
    && match ty
       case DmThinVolume => lv.segType.Thin?
       case StripedVolume => lv.segType.Striped? || lv.segType.Linear?
       case UnknownVolume => false
  }

  predicate Satisfied(t: Table, k: Key, size: nat, ty: VolumeType) {
    k in t && Compatible(t[k], size, ty)
  }

  /** No incomplete pool stands in the group. */
  predicate PoolClean(t: Table, vg: string) {
    PoolKey(vg) in t ==> t[PoolKey(vg)].segType.ThinPool?
  }

  predicate PoolReady(t: Table, vg: string) {
    PoolKey(vg) in t && t[PoolKey(vg)].segType.ThinPool? && t[PoolKey(vg)].active && t[PoolKey(vg)].healthy
  }

  /** Every volume is left as it was, and only the given names may be new. */
  ghost predicate OnlyGains(before: Table, after: Table, names: set<Key>) {
    && (forall j | j in before :: j in after && after[j] == before[j])
    && (forall j | j in after :: j in before || j in names)
  }

  function CreatedKeys(k: Key, ty: VolumeType): set<Key> {
    {k} + if ty.DmThinVolume? then {PoolKey(k.vg)} else {}
  }

  ghost predicate CreateSpec(before: Table, after: Table, k: Key, size: nat, ty: VolumeType, r: CreateResult) {
    && OnlyGains(before, after, CreatedKeys(k, ty))
    && (r == Err(BadRequest) <==> size == 0 || ty.UnknownVolume?)
    // an existing volume decides the call, and the call changes nothing
    && (k in before ==> after == before && (r.Ok? || r.error.BadRequest? || r.error.QueryFailed? || r.error.Incompatible?))
    && (k in before && r.Ok? ==> Compatible(before[k], size, ty))
    && (r == Err(Incompatible) ==> k in before && !Compatible(before[k], size, ty))
    // success
    && (r.Ok? ==> Satisfied(after, k, size, ty))
    && (r.Ok? && k !in before ==> after[k].origin == "")
    && (r.Ok? && k !in before && ty.DmThinVolume? ==>
          && after[k].pool == PoolKey(k.vg).name
          && PoolKey(k.vg) in after && after[PoolKey(k.vg)].segType.ThinPool? && PoolKey(k.vg) != k)
    // failure
    && (r.Err? && !r.error.VolumeTimedOut? && k !in before && k in after ==> k == PoolKey(k.vg) && ty.DmThinVolume?)
    && (r == Err(VolumeTimedOut) && k in after ==> Satisfied(after, k, size, ty))
    // the pool
    && (r.Ok? && k !in before && ty.DmThinVolume? && PoolKey(k.vg) in before ==> PoolReady(before, k.vg))
    && (r == Err(PoolIncomplete) ==> after == before && !PoolClean(before, k.vg))
    && (r == Err(PoolUnhealthy) ==> after == before && !PoolReady(before, k.vg) && PoolKey(k.vg) in before)
    && (ty.DmThinVolume? && PoolClean(before, k.vg) && r != Err(PoolTimedOut(false)) ==> PoolClean(after, k.vg))
  }

  // ---------------------------------------------------------------- the commands of a create

  /** At most the pool of the call is new: nothing, half of it, or all of it. */
  predicate PoolMade(before: Table, after: Table, vg: string) {
    || after == before
    || (&& PoolKey(vg) !in before && PoolKey(vg) in after && after == before[PoolKey(vg) := after[PoolKey(vg)]]
        && (PoolReady(after, vg) || after[PoolKey(vg)] == HalfPool(after[PoolKey(vg)].size)))
  }

  /** A command that prepares the pool, with the table it meets: the creation, or the removal of half a pool. */
  ghost predicate PoolEvent(before: Table, e: Event, vg: string) {
    && PoolKey(vg) !in before
    && match e.command
       case CreatePool(group) => group == vg && e.met == before
       case Remove(key) => key == PoolKey(vg) && key in e.met && e.met[key].segType.Linear? && PoolMade(before, e.met, vg)
       case _ => false
  }

  /** A command that a create may issue, with the table it meets. */
  ghost predicate CreateEvent(before: Table, e: Event, k: Key, size: nat, ty: VolumeType) {
    && k !in before
    && match e.command
       case CreateThin(vg, name, n) =>
         && ty.DmThinVolume? && Key(vg, name) == k && n == size
         && OnlyGains(before, e.met, {PoolKey(vg)}) && PoolReady(e.met, vg)
       case CreateStriped(vg, name, n, _) => ty.StripedVolume? && Key(vg, name) == k && n == size && e.met == before
       case _ => ty.DmThinVolume? && PoolEvent(before, e, k.vg)
  }

  /** Rolling back the half-made pool of this very call restores the table. */
  lemma HalfPoolGoesAlone(before: Table, vg: string, half: LV)
    requires WellFormed(before) && PoolKey(vg) !in before && half.segType.Linear? && half.origin == "" && half.pool == ""
    ensures Removed(before[PoolKey(vg) := half], PoolKey(vg)) == before
  {
    var t := before[PoolKey(vg) := half];
    AddedWellFormed(before, PoolKey(vg), half);
    AbsentUnused(before, PoolKey(vg));
    RemovedUnused(t, PoolKey(vg));
  }

  // ---------------------------------------------------------------- the two phases of a create

  /** prepareThinPool. */
  ghost predicate PrepareSpec(before: Table, after: Table, vg: string, ty: VolumeType, err: Option<CreateError>) {
    && OnlyGains(before, after, if ty.DmThinVolume? then {PoolKey(vg)} else {})
    && (!ty.DmThinVolume? ==> err == None)
    && (ty.DmThinVolume? && err == None ==> PoolReady(after, vg))
    && (err.Some? ==> !err.value.BadRequest? && !err.value.Incompatible? && !err.value.VolumeTimedOut?)
    && (err == Some(PoolIncomplete) ==> before == after && !PoolClean(before, vg))
    && (err == Some(PoolUnhealthy) ==> before == after && !PoolReady(before, vg) && PoolKey(vg) in before)
    && (err != Some(PoolTimedOut(false)) && PoolClean(before, vg) ==> PoolClean(after, vg))
  }

  /** The final lvcreate, over a pool that is ready if there is to be one. */
  ghost predicate VolumeSpec(before: Table, after: Table, k: Key, size: nat, ty: VolumeType, r: CreateResult) {
    && OnlyGains(before, after, {k})
    && (r.Ok? || r == Err(VolumeFailed) || r == Err(VolumeTimedOut))
    && (r.Ok? ==> k in after)
    && (r == Err(VolumeFailed) ==> after == before)
    && (r != Err(VolumeFailed) ==> k !in before)
    && (k !in before && k in after ==>
          && Satisfied(after, k, size, ty) && after[k].origin == ""
          && (ty.DmThinVolume? ==> after[k].pool == PoolKey(k.vg).name && k != PoolKey(k.vg)))
  }

  /** A create that gives up while it prepares the pool keeps its promise. */
  lemma PreparationFails(before: Table, after: Table, k: Key, size: nat, ty: VolumeType, err: CreateError)
    requires k !in before && size > 0 && !ty.UnknownVolume? && PrepareSpec(before, after, k.vg, ty, Some(err))
    ensures CreateSpec(before, after, k, size, ty, Err(err))
  {
  }

  /** Preparing the pool and then creating the volume is a create. */
  lemma PhasesCompose(t0: Table, t1: Table, t2: Table, k: Key, size: nat, ty: VolumeType, r: CreateResult)
    requires k !in t0 && size > 0 && !ty.UnknownVolume?
    requires PrepareSpec(t0, t1, k.vg, ty, None) && VolumeSpec(t1, t2, k, size, ty, r)
    ensures CreateSpec(t0, t2, k, size, ty, r)
  {
    if r.Err? && ty.DmThinVolume? { assert PoolReady(t1, k.vg); }
  }

  // ---------------------------------------------------------------- repeating creates

  /** Once a create has succeeded, repeating it succeeds and changes nothing, unless the volumes cannot be listed. */
  lemma CreateRetry(t0: Table, t1: Table, t2: Table, k: Key, size: nat, ty: VolumeType, r: CreateResult)
    requires CreateSpec(t0, t1, k, size, ty, Ok(())) && CreateSpec(t1, t2, k, size, ty, r)
    ensures t2 == t1 && (r.Ok? || r == Err(QueryFailed))
  {
  }

  /** A create that timed out after making the volume is completed by the next attempt. */
  lemma TimedOutVolumeIsFound(t0: Table, t1: Table, t2: Table, k: Key, size: nat, ty: VolumeType, r: CreateResult)
    requires CreateSpec(t0, t1, k, size, ty, Err(VolumeTimedOut)) && k in t1 && CreateSpec(t1, t2, k, size, ty, r)
    ensures t2 == t1 && (r.Ok? || r == Err(QueryFailed))
  {
  }

  // ---------------------------------------------------------------- sequences of creates

  datatype CreateCall = CreateCall(k: Key, size: nat, ty: VolumeType, r: CreateResult)

  /** Tables met by a sequence of creates, one after another. */
  ghost predicate CreateRun(tables: seq<Table>, calls: seq<CreateCall>) {
    && |tables| == |calls| + 1
    && forall i | 0 <= i < |calls| ::
         CreateSpec(tables[i], tables[i + 1], calls[i].k, calls[i].size, calls[i].ty, calls[i].r)
  }

  /** A volume that stands at some point of a sequence of creates stands unchanged at every later point. */
  lemma {:induction false} CreatesKeepVolumes(tables: seq<Table>, calls: seq<CreateCall>, m: nat, n: nat, j: Key)
    requires CreateRun(tables, calls) && m <= n < |tables| && j in tables[m]
    ensures j in tables[n] && tables[n][j] == tables[m][j]
  {
    if m < n {
      CreatesKeepVolumes(tables, calls, m, n - 1, j);
      assert OnlyGains(tables[n - 1], tables[n], CreatedKeys(calls[n - 1].k, calls[n - 1].ty));
    }
  }

  /** A pool that is not ready, such as half of one after a failed rollback, makes every dm-thin create of a new name fail. */
  lemma UnreadyPoolBlocks(before: Table, after: Table, k: Key, size: nat, r: CreateResult)
    requires CreateSpec(before, after, k, size, DmThinVolume, r) && k !in before
    requires PoolKey(k.vg) in before && !PoolReady(before, k.vg)
    ensures r.Err?
  {
  }

  // ---------------------------------------------------------------- deleting volumes

  /** RemoveLVSInVG. */
  function WithoutVolume(t: Table, k: Key): Table {
    if k in t then Removed(t, k) else t
  }

  predicate EmptyPool(t: Table, vg: string) {
    && PoolKey(vg) in t
    && t[PoolKey(vg)].segType.ThinPool?
    && ThinVolumes(t, vg, PoolKey(vg).name) == {}
  }

  /** RemoveThinPool. */
  function WithoutEmptyPool(t: Table, vg: string): Table {
    if EmptyPool(t, vg) then Removed(t, PoolKey(vg)) else t
  }

  /** deleteLV. */
  function Deleted(t: Table, k: Key, dmThin: bool): Table {
    if dmThin then WithoutEmptyPool(WithoutVolume(t, k), k.vg) else WithoutVolume(t, k)
  }

  lemma WithoutVolumeWellFormed(t: Table, k: Key)
    requires WellFormed(t)
    ensures WellFormed(WithoutVolume(t, k)) && k !in WithoutVolume(t, k)
  {
    if k in t { RemovedWellFormed(t, k); }
  }

  /** An empty pool goes alone: nothing else changes. */
  lemma EmptyPoolGoesAlone(t: Table, vg: string)
    requires WellFormed(t) && EmptyPool(t, vg)
    ensures WithoutEmptyPool(t, vg) == t - {PoolKey(vg)}
    ensures WellFormed(WithoutEmptyPool(t, vg))
  {
    var pool := PoolKey(vg);
    forall j | j in t && j.vg == pool.vg
      ensures t[j].origin != pool.name && (t[j].segType.Thin? ==> t[j].pool != pool.name)
    {
      assert WellFormedAt(t, j);
      assert j !in ThinVolumes(t, vg, pool.name);
    }
    RemovedUnused(t, pool);
    RemovedWellFormed(t, pool);
  }

  lemma DeletedWellFormed(t: Table, k: Key, dmThin: bool)
    requires WellFormed(t)
    ensures WellFormed(Deleted(t, k, dmThin)) && k !in Deleted(t, k, dmThin)
  {
    WithoutVolumeWellFormed(t, k);
    if dmThin && EmptyPool(WithoutVolume(t, k), k.vg) {
      EmptyPoolGoesAlone(WithoutVolume(t, k), k.vg);
    }
  }

  /** After a dm-thin delete the group's pool, if it is there, still holds thin volumes. */
  lemma PoolOnlyIfUsed(t: Table, k: Key)
    requires WellFormed(t)
    ensures var r := Deleted(t, k, true);
            PoolKey(k.vg) in r && r[PoolKey(k.vg)].segType.ThinPool? ==>
              ThinVolumes(r, k.vg, PoolKey(k.vg).name) != {}
  {
    WithoutVolumeWellFormed(t, k);
    if EmptyPool(WithoutVolume(t, k), k.vg) {
      EmptyPoolGoesAlone(WithoutVolume(t, k), k.vg);
    }
  }

  /** Repeating a delete changes nothing. */
  lemma DeleteIdempotent(t: Table, k: Key, dmThin: bool)
    requires WellFormed(t)
    ensures Deleted(Deleted(t, k, dmThin), k, dmThin) == Deleted(t, k, dmThin)
  {
    DeletedWellFormed(t, k, dmThin);
    if dmThin {
      PoolOnlyIfUsed(t, k);
    }
  }

  /** A delete that failed half-way is completed by its repetition. */
  lemma DeleteResumes(t: Table, k: Key, dmThin: bool)
    requires WellFormed(t)
    ensures Deleted(WithoutVolume(t, k), k, dmThin) == Deleted(t, k, dmThin)
  {
    WithoutVolumeWellFormed(t, k);
  }

  /** Which volumes a delete of a volume leaves: all but the volume, its thick snapshots and an emptied pool. */
  lemma DeleteKeeps(t: Table, k: Key, dmThin: bool, j: Key)
    requires WellFormed(t) && k in t && !t[k].segType.ThinPool? && j in t && j != PoolKey(k.vg)
    ensures j in Deleted(t, k, dmThin) <==> j != k && !(ThickSnapshot(t[j]) && j.vg == k.vg && t[j].origin == k.name)
    ensures j in Deleted(t, k, dmThin) ==>
              Deleted(t, k, dmThin)[j]
              == t[j].(origin := if j.vg == k.vg && t[j].origin == k.name then "" else t[j].origin)
  {
    RemovedKeeps(t, k, j);
    WithoutVolumeWellFormed(t, k);
    if dmThin && EmptyPool(WithoutVolume(t, k), k.vg) {
      EmptyPoolGoesAlone(WithoutVolume(t, k), k.vg);
    }
  }

  /** The pool made for a first thin volume holds no other. */
  lemma NewPoolHoldsOne(before: Table, after: Table, k: Key)
    requires WellFormed(before) && PoolKey(k.vg) !in before && k != PoolKey(k.vg)
    requires OnlyGains(before, after, {k, PoolKey(k.vg)})
    requires PoolKey(k.vg) in after && after[PoolKey(k.vg)].segType.ThinPool?
    ensures EmptyPool(after - {k}, k.vg)
  {
    var pool, t := PoolKey(k.vg), after - {k};
    forall j | j in t ensures !ThinIn(t, j, k.vg, pool.name) {
      if j in before {
        assert WellFormedAt(before, j);
        assert t[j] == before[j];
      }
    }
    assert ThinVolumes(t, k.vg, pool.name) == {};
  }

  lemma FirstThinVolume(before: Table, after: Table, k: Key, size: nat)
    requires k !in before && CreateSpec(before, after, k, size, DmThinVolume, Ok(()))
    ensures OnlyGains(before, after, {k, PoolKey(k.vg)}) && k in after && k != PoolKey(k.vg)
    ensures after[k].origin == "" && !after[k].segType.ThinPool?
    ensures PoolKey(k.vg) in after && after[PoolKey(k.vg)].segType.ThinPool?
  {
    assert CreatedKeys(k, DmThinVolume) == {k, PoolKey(k.vg)};
  }

  /** Creating the first thin volume of a group and deleting it restores the table. */
  lemma CreateThenDelete(before: Table, after: Table, k: Key, size: nat)
    requires WellFormed(before) && WellFormed(after) && k !in before && PoolKey(k.vg) !in before
    requires CreateSpec(before, after, k, size, DmThinVolume, Ok(()))
    ensures Deleted(after, k, true) == before
  {
    var pool := PoolKey(k.vg);
    FirstThinVolume(before, after, k, size);
    NewPoolHoldsOne(before, after, k);
    assert WellFormedAt(after, pool);
    NewVolumeUnused(before, after, k, {k, pool});
    RemovedUnused(after, k);
    WithoutVolumeWellFormed(after, k);
    EmptyPoolGoesAlone(after - {k}, k.vg);
    assert after - {k} - {pool} == before;
  }

  /** Creating a striped volume and deleting it restores the table. */
  lemma CreateThenDeleteStriped(before: Table, after: Table, k: Key, size: nat)
    requires WellFormed(before) && WellFormed(after) && k !in before
    requires CreateSpec(before, after, k, size, StripedVolume, Ok(()))
    ensures Deleted(after, k, false) == before
  {
    NewVolumeUnused(before, after, k, {k});
    RemovedUnused(after, k);
  }

  /** Nothing hangs on a volume that was just created, unless it was created as a pool for the others. */
  lemma NewVolumeUnused(before: Table, after: Table, k: Key, names: set<Key>)
    requires WellFormed(before) && WellFormed(after) && OnlyGains(before, after, names) && k in after && k !in before
    requires forall j | j in names && j in after :: j !in before ==> after[j].origin == "" && (j == k || !after[j].segType.Thin?)
    requires !after[k].segType.ThinPool?
    ensures Unused(after, k)
  {
    assert WellFormedAt(after, k);
    AbsentUnused(before, k);
    forall j | j in after && j.vg == k.vg
      ensures after[j].origin != k.name && (after[j].segType.Thin? ==> after[j].pool != k.name)
    {
      assert WellFormedAt(after, j);
    }
  }
}
