/** The operations of the helper process on the node's volumes: each runs LVM commands one after another. */
module LvmBackend {
  import opened Wrappers
  import opened LvmTable
  import opened LvmSpec
  import opened LvmSnapshotSpec
  import opened Filesystem
  import opened DriverNames

  /** A line of lvs. */
  datatype Row = Row(key: Key, lv: LV)

  predicate Shows(rows: seq<Row>, t: Table) {
    && (forall i | 0 <= i < |rows| :: rows[i].key in t && t[rows[i].key] == rows[i].lv)
    && (forall k | k in t :: exists i | 0 <= i < |rows| :: rows[i].key == k)
    && (forall i, j | 0 <= i < j < |rows| :: rows[i].key != rows[j].key)
  }

  /** From event n on, a dm-thin volume is only ever requested from a pool that is complete, active and healthy. */
  ghost predicate ThinFromReadyPools(log: seq<Event>, n: nat) {
    forall i | n <= i < |log| && log[i].command.CreateThin? :: PoolReady(log[i].met, log[i].command.vg)
  }

  /** From event n on, what is removed is a linear LV under the pool's name. */
  ghost predicate RemovesOnlyLinearPools(log: seq<Event>, n: nat, vg: string) {
    forall i | n <= i < |log| && log[i].command.Remove? ::
      var key := log[i].command.key;
      key == PoolKey(vg) && key in log[i].met && log[i].met[key].segType.Linear?
  }

  /** From event n on, every command is one that prepares the pool for a call that met the table before. */
  ghost predicate PoolEvents(before: Table, log: seq<Event>, n: nat, vg: string) {
    forall i | n <= i < |log| :: PoolEvent(before, log[i], vg)
  }

  /** From event n on, every command is one of the create of k, called over the table before. */
  ghost predicate CreateEvents(before: Table, log: seq<Event>, n: nat, k: Key, size: nat, ty: VolumeType) {
    forall i | n <= i < |log| :: CreateEvent(before, log[i], k, size, ty)
  }

  /** From event n on, no pool is created. */
  ghost predicate CreatesNoPool(log: seq<Event>, n: nat) {
    forall i | n <= i < |log| :: !log[i].command.CreatePool?
  }

  lemma PreparationEvents(before: Table, log: seq<Event>, n: nat, k: Key, size: nat)
    requires k !in before && PoolEvents(before, log, n, k.vg)
    ensures CreateEvents(before, log, n, k, size, DmThinVolume)
  {
    forall i | n <= i < |log| ensures CreateEvent(before, log[i], k, size, DmThinVolume) {
      assert PoolEvent(before, log[i], k.vg);
    }
  }

  lemma VolumeEvent(before: Table, met: Table, log: seq<Event>, n: nat, k: Key, size: nat, ty: VolumeType, stripes: nat)
    requires k !in before && !ty.UnknownVolume? && PrepareSpec(before, met, k.vg, ty, None)
    requires CreateEvents(before, log, n, k, size, ty)
    ensures CreateEvents(before, log + [Event(VolumeCommand(k, size, ty, stripes), met)], n, k, size, ty)
  {
    if ty.StripedVolume? { assert met == before; }
  }

  lemma EventsAreSafe(before: Table, log: seq<Event>, n: nat, k: Key, size: nat, ty: VolumeType)
    requires CreateEvents(before, log, n, k, size, ty)
    ensures RemovesOnlyLinearPools(log, n, k.vg) && ThinFromReadyPools(log, n)
  {
    forall i | n <= i < |log| ensures CreateEvent(before, log[i], k, size, ty) { }
  }

  function VolumeCommand(k: Key, size: nat, ty: VolumeType, stripes: nat): Command {
    if ty.StripedVolume? then CreateStriped(k.vg, k.name, size, stripes) else CreateThin(k.vg, k.name, size)
  }

  /** The request can be met: the name is free and the pool, if there is one, is ready. */
  ghost predicate Creatable(t: Table, pvs: map<string, nat>, k: Key, size: nat, ty: VolumeType) {
    && k !in t && k.name != "" && size > 0 && k.vg in pvs
    && match ty
       case StripedVolume => pvs[k.vg] > 0
       case DmThinVolume => k != PoolKey(k.vg) && (PoolKey(k.vg) in t ==> PoolReady(t, k.vg))
       case UnknownVolume => false
  }

  class Node {
    var table: Table
    /** The physical volumes of each volume group. */
    var pvs: map<string, nat>
    /** How the next changing commands turn out, and whether the next queries fail. */
    var outcomes: seq<Outcome>
    var failures: seq<bool>
    /** The device of each volume, and the sizes of the filesystems that have been made on them. */
    const device: Key -> Device
    var filesystems: map<Key, nat>
    ghost var log: seq<Event>

    constructor (table: Table, pvs: map<string, nat>, outcomes: seq<Outcome>, failures: seq<bool>,
                 device: Key -> Device, filesystems: map<Key, nat>)
      ensures this.table == table && this.pvs == pvs && this.outcomes == outcomes && this.failures == failures
      ensures this.device == device && this.filesystems == filesystems && log == []
    {
      this.table, this.pvs, this.outcomes, this.failures := table, pvs, outcomes, failures;
      this.device, this.filesystems, this.log := device, filesystems, [];
    }

    /** Every command and query from here on does what it is asked. */
    ghost predicate NoFaults()
      reads this
    {
      outcomes == [] && failures == []
    }

    /** Runs a command that changes volumes. */
    method Execute(c: Command) returns (reply: Reply, ghost o: Outcome)
      requires WellFormed(table)
      modifies `table, `outcomes, `log
      ensures WellFormed(table)
      ensures table == TableAfter(old(table), c, o) && reply == ReplyOf(old(table), c, o)
      ensures log == old(log) + [Event(c, old(table))]
      ensures old(outcomes) == [] ==> o == Outcome(Replied, 0) && outcomes == []
    {
      var outcome := Outcome(Replied, 0);
      if outcomes != [] {
        outcome, outcomes := outcomes[0], outcomes[1..];
      }
      o := outcome;
      CommandWellFormed(table, c, outcome);
      log := log + [Event(c, table)];
      reply := ReplyOf(table, c, outcome);
      table := TableAfter(table, c, outcome);
    }

    method QueryFails() returns (fails: bool)
      modifies `failures
      ensures old(failures) == [] ==> !fails && failures == []
    {
      fails := false;
      if failures != [] {
        fails, failures := failures[0], failures[1..];
      }
    }

    /** lvs over all groups: every volume once, in any order. None when the query fails. */
    method ListLogicalVolumes() returns (rows: Option<seq<Row>>)
      modifies `failures
      ensures rows.Some? ==> Shows(rows.value, table)
      ensures old(failures) == [] ==> rows.Some? && failures == []
    {
      var fails := QueryFails();
      if fails {
        return None;
      }
      var volumes: seq<Row> := [];
      var rest := table.Keys;
      while rest != {}
        invariant rest <= table.Keys
        invariant forall i | 0 <= i < |volumes| :: volumes[i].key in table && table[volumes[i].key] == volumes[i].lv
        invariant forall i | 0 <= i < |volumes| :: volumes[i].key !in rest
        invariant forall k | k in table && k !in rest :: exists i | 0 <= i < |volumes| :: volumes[i].key == k
        invariant forall i, j | 0 <= i < j < |volumes| :: volumes[i].key != volumes[j].key
      {
        var key :| key in rest;
        ghost var before := volumes;
        volumes, rest := volumes + [Row(key, table[key])], rest - {key};
        forall k | k in table && k !in rest ensures exists i | 0 <= i < |volumes| :: volumes[i].key == k {
          if k == key {
            assert volumes[|before|].key == k;
          } else {
            var i :| 0 <= i < |before| && before[i].key == k;
            assert volumes[i].key == k;
          }
        }
      }
      return Some(volumes);
    }

    /** None when the query fails; otherwise the volume of the group and name, if there is one. */
    method GetLogicalVolume(k: Key) returns (found: Option<Option<LV>>)
      modifies `failures
      ensures found.Some? ==> found.value == if k in table then Some(table[k]) else None
      ensures old(failures) == [] ==> found.Some? && failures == []
    {
      var rows := ListLogicalVolumes();
      if rows == None {
        return None;
      }
      for i := 0 to |rows.value|
        invariant forall j | 0 <= j < i :: rows.value[j].key != k
      {
        if rows.value[i].key == k {
          return Some(Some(rows.value[i].lv));
        }
      }
      return Some(None);
    }

    method GetLogicalVolumeByName(name: string) returns (r: Result<Row, ExtendError>)
      modifies `failures
      ensures r == Err(ExtendQueryFailed) || Identified(table, name, r)
      ensures old(failures) == [] ==> r != Err(ExtendQueryFailed)
    {
      var rows := ListLogicalVolumes();
      if rows == None {
        return Err(ExtendQueryFailed);
      }
      var volumes := rows.value;
      var hit: Option<nat> := None;
      for i := 0 to |volumes|
        invariant hit.Some? ==> hit.value < i && volumes[hit.value].key.name == name
        invariant forall j | 0 <= j < i && hit != Some(j) :: volumes[j].key.name != name
      {
        if volumes[i].key.name == name {
          if hit.Some? {
            TwoRows(volumes, table, hit.value, i);
            return Err(Ambiguous);
          }
          hit := Some(i);
        }
      }
      if hit == None {
        NoRow(volumes, table, name);
        return Err(NoSuchVolume);
      }
      OneRow(volumes, table, hit.value);
      return Ok(volumes[hit.value]);
    }

    // -------------------------------------------------------------- creating

    method PVCount(vg: string) returns (count: Option<nat>)
      modifies `failures
      ensures count.Some? ==> vg in pvs && count.value == pvs[vg]
      ensures old(failures) == [] && vg in pvs ==> count.Some? && failures == []
    {
      var fails := QueryFails();
      return if fails || vg !in pvs then None else Some(pvs[vg]);
    }

    /** Attributes and health of a pool that was just found. */
    method ValidateThinPool(vg: string) returns (err: Option<CreateError>)
      requires PoolKey(vg) in table && table[PoolKey(vg)].segType.ThinPool?
      modifies `failures
      ensures err == None ==> PoolReady(table, vg)
      ensures old(failures) == [] ==> err != Some(QueryFailed) && failures == []
      ensures err.Some? ==> err == Some(QueryFailed) || (err == Some(PoolUnhealthy) && !PoolReady(table, vg))
    {
      var fails := QueryFails();
      if fails {
        return Some(QueryFailed);
      }
      var pool := table[PoolKey(vg)];
      if !pool.active {
        return Some(PoolUnhealthy);
      }
      if !pool.healthy {
        return Some(PoolUnhealthy);
      }
      return None;
    }

    /** True when no incomplete pool is left. */
    method RollbackThinPoolCreate(vg: string) returns (ok: bool)
      requires WellFormed(table)
      modifies `table, `outcomes, `failures, `log
      ensures WellFormed(table)
      ensures table == old(table) || (PoolKey(vg) in old(table) && old(table)[PoolKey(vg)].segType.Linear?
                                      && table == Removed(old(table), PoolKey(vg)))
      ensures ok ==> PoolClean(table, vg)
      ensures old(NoFaults()) && (PoolKey(vg) in old(table) ==> old(table)[PoolKey(vg)].segType in {Linear, ThinPool}) ==> ok
      ensures log == old(log) || (PoolKey(vg) in old(table) && old(table)[PoolKey(vg)].segType.Linear?
                                  && log == old(log) + [Event(Remove(PoolKey(vg)), old(table))])
    {
      var found := GetLogicalVolume(PoolKey(vg));
      if found == None {
        return false;
      }
      if found.value == None {
        return true;
      }
      var pool := found.value.value;
      if pool.segType.ThinPool? {
        return true;
      }
      if !pool.segType.Linear? {
        return false;
      }
      RemovedWellFormed(table, PoolKey(vg));
      var reply, o := Execute(Remove(PoolKey(vg)));
      return reply.Done?;
    }

    /** Creates the pool. A timeout may leave nothing, half a pool or the whole pool; a half one is rolled back. */
    method CreateThinPool(vg: string) returns (err: Option<CreateError>)
      requires WellFormed(table) && PoolKey(vg) !in table
      modifies `table, `outcomes, `failures, `log
      ensures WellFormed(table)
      ensures OnlyGains(old(table), table, {PoolKey(vg)})
      ensures err == None ==> PoolReady(table, vg)
      ensures err.Some? ==> err.value.PoolFailed? || err.value.PoolTimedOut?
      ensures err != Some(PoolTimedOut(false)) ==> PoolClean(table, vg)
      ensures old(NoFaults()) ==> err == None && NoFaults()
      ensures old(log) <= log && PoolEvents(old(table), log, |old(log)|, vg)
    {
      var reply, o := Execute(CreatePool(vg));
      PoolAttempt(old(table), vg, o);
      if reply.Done? {
        return None;
      }
      if !reply.CommandTimedOut? {
        return Some(PoolFailed);
      }
      ghost var left := table;
      var ok := RollbackThinPoolCreate(vg);
      AttemptRolledBack(old(table), left, table, vg);
      return Some(PoolTimedOut(ok));
    }

    method PrepareThinPool(vg: string, ty: VolumeType) returns (err: Option<CreateError>)
      requires WellFormed(table)
      modifies `table, `outcomes, `failures, `log
      ensures WellFormed(table)
      ensures PrepareSpec(old(table), table, vg, ty, err)
      ensures old(NoFaults()) && (ty.DmThinVolume? && PoolKey(vg) in old(table) ==> PoolReady(old(table), vg)) ==>
                err == None && NoFaults()
      ensures old(log) <= log && PoolEvents(old(table), log, |old(log)|, vg)
      ensures !ty.DmThinVolume? ==> log == old(log)
    {
      if !ty.DmThinVolume? {
        return None;
      }
      var found := GetLogicalVolume(PoolKey(vg));
      if found == None {
        return Some(QueryFailed);
      }
      if found.value.Some? {
        if !found.value.value.segType.ThinPool? {
          return Some(PoolIncomplete);
        }
        err := ValidateThinPool(vg);
        return;
      }
      err := CreateThinPool(vg);
    }

    /** Safe to repeat: an existing compatible volume is accepted, and no existing volume is touched. */
    method CreateLVS(vg: string, name: string, size: nat, ty: VolumeType) returns (r: CreateResult)
      requires WellFormed(table)
      modifies `table, `outcomes, `failures, `log
      ensures WellFormed(table)
      ensures CreateSpec(old(table), table, Key(vg, name), size, ty, r)
      // success: a volume of the name stands that is large enough and of the type asked for
      ensures r.Ok? ==>
                && Key(vg, name) in table && table[Key(vg, name)].size >= size > 0
                && match ty
                   case DmThinVolume => table[Key(vg, name)].segType == Thin
                   case StripedVolume => table[Key(vg, name)].segType in {Striped, Linear}
                   case UnknownVolume => false
      // an existing volume is refused exactly when it is too small or of another type
      ensures Key(vg, name) in old(table) && size > 0 && !ty.UnknownVolume? && r != Err(QueryFailed) ==>
                var lv := old(table)[Key(vg, name)];
                r == if lv.size < size || (ty.DmThinVolume? && lv.segType != Thin)
                        || (ty.StripedVolume? && lv.segType !in {Striped, Linear})
                     then Err(Incompatible) else Ok(())
      // a new thin volume comes from the group's pool, which was complete, active and healthy if it was there
      ensures r.Ok? && Key(vg, name) !in old(table) && ty.DmThinVolume? ==>
                && table[Key(vg, name)].pool == vg + "-thinpool"
                && (Key(vg, vg + "-thinpool") in old(table) ==>
                      var pool := old(table)[Key(vg, vg + "-thinpool")];
                      pool.segType == ThinPool && pool.active && pool.healthy)
      // an existing volume is answered without a command
      ensures Key(vg, name) in old(table) ==> log == old(log) && (old(failures) == [] ==> r != Err(QueryFailed))
      // a new volume comes only from a possible request, and without faults every possible request is met
      ensures r.Ok? && Key(vg, name) !in old(table) ==> Creatable(old(table), pvs, Key(vg, name), size, ty)
      ensures old(NoFaults()) && Key(vg, name) !in old(table) ==>
                (r.Ok? <==> Creatable(old(table), pvs, Key(vg, name), size, ty))
      // there are as many stripes as physical volumes
      ensures r.Ok? && Key(vg, name) !in old(table) && ty.StripedVolume? ==>
                vg in pvs && table[Key(vg, name)].segType == if pvs[vg] == 1 then Linear else Striped
      ensures old(log) <= log && RemovesOnlyLinearPools(log, |old(log)|, vg) && ThinFromReadyPools(log, |old(log)|)
      // every command it issues, and the table that command meets
      ensures CreateEvents(old(table), log, |old(log)|, Key(vg, name), size, ty)
    {
      var k := Key(vg, name);
      if size == 0 {
        return Err(BadRequest);
      }
      if !ty.StripedVolume? && !ty.DmThinVolume? {
        return Err(BadRequest);
      }
      var existing := GetLogicalVolume(k);
      if existing == None {
        return Err(QueryFailed);
      }
      if existing.value.Some? {
        return if Compatible(existing.value.value, size, ty) then Ok(()) else Err(Incompatible);
      }
      r := CreateNew(k, size, ty);
      EventsAreSafe(old(table), log, |old(log)|, k, size, ty);
    }

    /** What CreateLVS does for a name that is free. */
    method CreateNew(k: Key, size: nat, ty: VolumeType) returns (r: CreateResult)
      requires WellFormed(table) && k !in table && size > 0 && !ty.UnknownVolume?
      modifies `table, `outcomes, `failures, `log
      ensures WellFormed(table)
      ensures CreateSpec(old(table), table, k, size, ty, r)
      ensures r.Ok? ==> Creatable(old(table), pvs, k, size, ty)
      ensures old(NoFaults()) && Creatable(old(table), pvs, k, size, ty) ==> r.Ok?
      ensures r.Ok? && ty.StripedVolume? ==> k.vg in pvs && table[k].segType == if pvs[k.vg] == 1 then Linear else Striped
      ensures old(log) <= log && CreateEvents(old(table), log, |old(log)|, k, size, ty)
    {
      var err := PrepareThinPool(k.vg, ty);
      if ty.DmThinVolume? { PreparationEvents(old(table), log, |old(log)|, k, size); }
      if err.Some? {
        PreparationFails(old(table), table, k, size, ty, err.value);
        return Err(err.value);
      }
      var count := PVCount(k.vg);
      ghost var prepared := table;
      if count == None {
        PhasesCompose(old(table), prepared, table, k, size, ty, Err(VolumeFailed));
        return Err(QueryFailed);
      }
      VolumeEvent(old(table), table, log, |old(log)|, k, size, ty, count.value);
      r := CreateVolume(k, size, ty, count.value);
      PhasesCompose(old(table), prepared, table, k, size, ty, r);
    }

    /** The lvcreate that ends CreateLVS. */
    method CreateVolume(k: Key, size: nat, ty: VolumeType, stripes: nat) returns (r: CreateResult)
      requires WellFormed(table) && !ty.UnknownVolume?
      requires ty.DmThinVolume? ==> PoolReady(table, k.vg)
      modifies `table, `outcomes, `log
      ensures WellFormed(table)
      ensures VolumeSpec(old(table), table, k, size, ty, r)
      ensures r.Ok? && ty.StripedVolume? ==> table[k].segType == if stripes == 1 then Linear else Striped
      ensures r.Ok? ==> k.name != "" && (ty.StripedVolume? ==> stripes > 0)
      ensures old(outcomes) == [] && k !in old(table) && k.name != "" && (ty.StripedVolume? ==> stripes > 0) ==> r.Ok?
      ensures log == old(log) + [Event(VolumeCommand(k, size, ty, stripes), old(table))]
    {
      var reply, o := Execute(VolumeCommand(k, size, ty, stripes));
      r := match reply case Done => Ok(()) case CommandFailed => Err(VolumeFailed) case CommandTimedOut => Err(VolumeTimedOut);
    }

    // -------------------------------------------------------------- deleting

    /** An absent volume counts as removed. */
    method RemoveLVSInVG(k: Key) returns (ok: bool)
      requires WellFormed(table)
      modifies `table, `outcomes, `failures, `log
      ensures WellFormed(table)
      ensures table == old(table) || table == WithoutVolume(old(table), k)
      ensures ok ==> table == WithoutVolume(old(table), k)
      ensures old(NoFaults()) ==> ok && NoFaults()
      ensures k !in old(table) ==> log == old(log)
      ensures old(log) <= log && CreatesNoPool(log, |old(log)|)
    {
      var found := GetLogicalVolume(k);
      if found == None {
        return false;
      }
      if found.value == None {
        return true;
      }
      var reply, o := Execute(Remove(k));
      return reply.Done?;
    }

    /** The thin pools of a group with the number of their thin volumes. */
    method GetThinPoolAndCounts(vg: string) returns (pools: Option<map<string, nat>>)
      modifies `failures
      ensures pools.Some? ==>
                && (forall n :: n in pools.value <==> Key(vg, n) in table && table[Key(vg, n)].segType.ThinPool?)
                && (forall n | n in pools.value :: pools.value[n] == |ThinVolumes(table, vg, n)|)
      ensures old(failures) == [] ==> pools.Some? && failures == []
    {
      var lines := ListLogicalVolumes();
      if lines == None {
        return None;
      }
      var counts: map<string, nat> := map[];
      for i := 0 to |lines.value|
        invariant forall n :: n in counts <==>
                    exists j | 0 <= j < i :: lines.value[j].key == Key(vg, n) && lines.value[j].lv.segType.ThinPool?
        invariant forall n | n in counts :: counts[n] == |ThinVolumes(table, vg, n)|
      {
        var line := lines.value[i];
        if line.key.vg == vg && line.lv.segType.ThinPool? {
          counts := counts[line.key.name := |ThinVolumes(table, vg, line.key.name)|];
        }
      }
      return Some(counts);
    }

    /** Removes the group's pool if it is there and holds no thin volume. */
    method RemoveThinPool(vg: string) returns (ok: bool)
      requires WellFormed(table)
      modifies `table, `outcomes, `failures, `log
      ensures WellFormed(table)
      ensures table == old(table) || table == WithoutEmptyPool(old(table), vg)
      ensures ok ==> table == WithoutEmptyPool(old(table), vg)
      ensures old(NoFaults()) ==> ok
      ensures old(log) <= log && CreatesNoPool(log, |old(log)|)
    {
      var pools := GetThinPoolAndCounts(vg);
      if pools == None {
        return false;
      }
      var target := PoolKey(vg).name;
      if target !in pools.value {
        return true;
      }
      if pools.value[target] > 0 {
        return true;
      }
      assert EmptyPool(table, vg);
      ok := RemoveLVSInVG(PoolKey(vg));
    }

    /** The delete helper: the volume, then the pool if that was its last. */
    method DeleteLV(vg: string, name: string, srcType: string) returns (ok: bool)
      requires WellFormed(table)
      modifies `table, `outcomes, `failures, `log
      ensures WellFormed(table)
      ensures ok ==> table == Deleted(old(table), Key(vg, name), srcType == DM_THIN)
      ensures || table == old(table) || table == WithoutVolume(old(table), Key(vg, name))
              || table == Deleted(old(table), Key(vg, name), srcType == DM_THIN)
      // an empty flag is refused before anything is done; without faults nothing else fails
      ensures name == "" || vg == "" || srcType == "" ==> !ok && table == old(table) && log == old(log)
      ensures old(NoFaults()) ==> (ok <==> name != "" && vg != "" && srcType != "")
      ensures old(log) <= log && CreatesNoPool(log, |old(log)|)
    {
      if name == "" || vg == "" || srcType == "" {
        return false;
      }
      ok := RemoveLVSInVG(Key(vg, name));
      if ok && srcType == DM_THIN {
        ok := RemoveThinPool(vg);
      }
    }

    // -------------------------------------------------------------- snapshots

    method CreateSnapshot(handle: string, src: string, vg: string, size: int, ty: VolumeType, forClone: bool)
      returns (r: SnapshotResult)
      requires WellFormed(table)
      modifies `table, `outcomes, `failures, `log
      ensures WellFormed(table)
      ensures SnapshotSpec(old(table), table, vg, SnapshotLV(handle, forClone), src, size, ty, r)
      ensures Key(vg, SnapshotLV(handle, forClone)) in old(table) ==> log == old(log)
      ensures old(log) <= log && CreatesNoPool(log, |old(log)|)
      ensures old(failures) == [] ==> r != Err(SnapshotQueryFailed)
      // a new snapshot comes only from a source that can be snapshotted this way
      ensures r.Ok? && Key(vg, SnapshotLV(handle, forClone)) !in old(table) ==>
                SnapshotSource(old(table)[Key(vg, src)], ty) && (ty.StripedVolume? ==> size > 0)
      // without faults: the source must be there, and the snapshot be there already or possible
      ensures old(NoFaults()) && handle != "" && src != "" && size != 0 ==>
                var k := Key(vg, SnapshotLV(handle, forClone));
                r.Ok? <==> && Key(vg, src) in old(table)
                           && if k in old(table) then old(table)[k].origin == src
                              else SnapshotSource(old(table)[Key(vg, src)], ty) && (ty.StripedVolume? ==> size > 0)
    {
      var name := SnapshotLV(handle, forClone);
      if handle == "" || src == "" || size == 0 {
        return Err(SnapshotBadRequest);
      }
      var source := GetLogicalVolume(Key(vg, src));
      if source == None {
        return Err(SnapshotQueryFailed);
      }
      if source.value == None {
        return Err(NoSource);
      }
      var existing := GetLogicalVolume(Key(vg, name));
      if existing == None {
        return Err(SnapshotQueryFailed);
      }
      if existing.value.Some? {
        return if existing.value.value.origin != src then Err(OtherOrigin) else Ok(());
      }
      r := IssueSnapshot(vg, name, src, size, ty);
    }

    /** The lvcreate that ends CreateSnapshot. */
    method IssueSnapshot(vg: string, name: string, src: string, size: int, ty: VolumeType) returns (r: SnapshotResult)
      requires WellFormed(table) && Key(vg, name) !in table && Key(vg, src) in table && src != "" && name != ""
      modifies `table, `outcomes, `log
      ensures WellFormed(table)
      ensures OnlyGains(old(table), table, {Key(vg, name)})
      ensures r.Ok? || r == Err(UnsupportedType) || r == Err(SnapshotFailed) || r == Err(SnapshotTimedOut)
      ensures r.Ok? ==> Key(vg, name) in table
      ensures old(log) <= log && CreatesNoPool(log, |old(log)|)
      ensures r.Err? && !r.error.SnapshotTimedOut? ==> table == old(table)
      ensures Key(vg, name) in table ==> NewSnapshot(table[Key(vg, name)], old(table)[Key(vg, src)], src, size, ty)
      ensures r.Ok? ==> SnapshotSource(old(table)[Key(vg, src)], ty) && (ty.StripedVolume? ==> size >= 0)
      ensures old(outcomes) == [] && SnapshotSource(old(table)[Key(vg, src)], ty) && (ty.StripedVolume? ==> size >= 0) ==>
                r.Ok?
    {
      if ty.UnknownVolume? {
        return Err(UnsupportedType);
      }
      // lvcreate refuses a negative size.
      if ty.StripedVolume? && size < 0 {
        return Err(SnapshotFailed);
      }
      var space := if ty.StripedVolume? then Some(size as nat) else None;
      var reply, o := Execute(TakeSnapshot(vg, name, src, space));
      r := match reply
           case Done => Ok(())
           case CommandFailed => Err(SnapshotFailed)
           case CommandTimedOut => Err(SnapshotTimedOut);
    }

    method DeleteSnapshot(handle: string, vg: string) returns (ok: bool)
      requires WellFormed(table)
      modifies `table, `outcomes, `failures, `log
      ensures WellFormed(table)
      ensures table == old(table) || table == WithoutVolume(old(table), Key(vg, SnapshotLV(handle, false)))
      ensures ok ==> handle != "" && table == WithoutVolume(old(table), Key(vg, SnapshotLV(handle, false)))
      ensures old(NoFaults()) && handle != "" ==> ok
      ensures old(log) <= log && CreatesNoPool(log, |old(log)|)
    {
      if handle == "" {
        return false;
      }
      ok := RemoveLVSInVG(Key(vg, SnapshotLV(handle, false)));
    }

    // -------------------------------------------------------------- extending

    method EnsureLogicalVolumeSize(volume: Row, size: nat) returns (ok: bool)
      requires WellFormed(table) && volume.key in table && table[volume.key] == volume.lv
      modifies `table, `outcomes, `log
      ensures WellFormed(table) && volume.key in table
      ensures log == if volume.lv.size < size then old(log) + [Event(Extend(volume.key, size), old(table))] else old(log)
      ensures || table == old(table)
              || (volume.lv.size < size <= table[volume.key].size
                  && table == old(table)[volume.key := volume.lv.(size := table[volume.key].size)])
      ensures ok ==> table[volume.key].size >= size
      ensures old(outcomes) == [] ==> ok && outcomes == []
    {
      if volume.lv.size >= size {
        return true;
      }
      var reply, o := Execute(Extend(volume.key, size));
      return reply.Done?;
    }

    /** Grows the filesystem of a volume to the volume's size. Nothing is ever formatted. */
    method ResizeFilesystem(k: Key, tools: Tools, growth: Growth) returns (err: Option<ExtendError>)
      requires k in table
      modifies `filesystems
      // success: the filesystem fills its volume
      ensures err == None ==> filesystems == old(filesystems)[k := table[k].size]
      // failure: it is as it was, or its tool stopped half-way; it never shrinks or outgrows a volume it fitted
      ensures err.Some? ==>
                || filesystems == old(filesystems)
                || (err == Some(ResizeFailed) && k in filesystems
                    && filesystems == old(filesystems)[k := filesystems[k]]
                    && FilesystemSize(old(filesystems), k) <= filesystems[k]
                    && (FilesystemSize(old(filesystems), k) <= table[k].size ==> filesystems[k] <= table[k].size))
      ensures err.Some? ==> err.value.ProbeFailed? || err.value.NoResize? || err.value.ResizeFailed?
      ensures err == None <==> FoundGrowable(device(k).signatures, tools) && growth.Grows?
    {
      var detected := device(k).GetFilesystemType(tools);
      if detected.Err? {
        return Some(ProbeFailed);
      }
      if detected.value !in GROWABLE {
        return Some(NoResize);
      }
      filesystems := filesystems[k := GrownSize(FilesystemSize(filesystems, k), table[k].size, growth)];
      return if growth.Grows? then None else Some(ResizeFailed);
    }

    method ExtendLVS(name: string, size: nat, isBlock: bool, tools: Tools, growth: Growth) returns (r: ExtendResult)
      requires WellFormed(table)
      modifies `table, `outcomes, `failures, `filesystems, `log
      ensures WellFormed(table)
      ensures ExtendSpec(old(table), table, name, size, r, log != old(log))
      ensures log == old(log) || (|log| == |old(log)| + 1 && old(log) <= log && log[|old(log)|].command.Extend?)
      // success on a filesystem: it fills its volume, and so has at least the size asked for
      ensures r.Ok? && !isBlock ==>
                exists k: Key :: k.name == name && UniqueName(table, k)
                                 && filesystems == old(filesystems)[k := table[k].size] && table[k].size >= size
      ensures isBlock || BeforeExtend(r) || r == Err(ExtendFailed) ==> filesystems == old(filesystems)
      // whatever the outcome, filesystems that fit their volumes still do, and none has shrunk
      ensures Fit(old(filesystems), old(table)) ==> Fit(filesystems, table) && Kept(old(filesystems), filesystems)
      // without faults the name's being unique and, for a filesystem, its being growable decide
      ensures old(NoFaults()) ==>
                (r.Ok? <==> exists k: Key :: k.name == name && UniqueName(old(table), k)
                                             && (isBlock || (FoundGrowable(device(k).signatures, tools) && growth.Grows?)))
    {
      var volume := GetLogicalVolumeByName(name);
      if volume.Err? {
        if volume != Err(ExtendQueryFailed) { NotUnique(table, name, volume); }
        return Err(volume.error);
      }
      r := ExtendVolume(volume.value, size, isBlock, tools, growth);
      assert ExtendAt(old(table), table, volume.value.key, size, r, log != old(log));
    }

    /** What extendLVS does with the volume it found. */
    method ExtendVolume(volume: Row, size: nat, isBlock: bool, tools: Tools, growth: Growth) returns (r: ExtendResult)
      requires WellFormed(table) && UniqueName(table, volume.key) && table[volume.key] == volume.lv
      modifies `table, `outcomes, `filesystems, `log
      ensures WellFormed(table) && UniqueName(table, volume.key) && !BeforeExtend(r)
      ensures ExtendAt(old(table), table, volume.key, size, r, log != old(log))
      ensures log == old(log) || log == old(log) + [Event(Extend(volume.key, size), old(table))]
      ensures r.Ok? && !isBlock ==> filesystems == old(filesystems)[volume.key := table[volume.key].size]
      ensures isBlock || r == Err(ExtendFailed) ==> filesystems == old(filesystems)
      ensures Fit(old(filesystems), old(table)) ==> Fit(filesystems, table) && Kept(old(filesystems), filesystems)
      ensures old(outcomes) == [] ==>
                (r.Ok? <==> isBlock || (FoundGrowable(device(volume.key).signatures, tools) && growth.Grows?))
    {
      var k := volume.key;
      var ok := EnsureLogicalVolumeSize(volume, size);
      FitGrown(filesystems, old(table), table, k);
      if !ok {
        r := Err(ExtendFailed);
      } else if isBlock {
        r := Ok(());
      } else {
        var err := ResizeFilesystem(k, tools, growth);
        r := if err == None then Ok(()) else Err(err.value);
      }
    }
  }

  /** No filesystem has shrunk or gone. */
  ghost predicate Kept(before: map<Key, nat>, after: map<Key, nat>) {
    forall k | k in before :: k in after && after[k] >= before[k]
  }

  /** Growing a volume leaves every filesystem within its volume. */
  lemma FitGrown(filesystems: map<Key, nat>, before: Table, after: Table, k: Key)
    requires k in before
    requires after == before || (k in after && after == before[k := after[k]] && after[k].size >= before[k].size)
    ensures Fit(filesystems, before) ==> Fit(filesystems, after)
  {
  }

  function FilesystemSize(filesystems: map<Key, nat>, k: Key): nat {
    if k in filesystems then filesystems[k] else 0
  }

  /** Every filesystem is within its volume. */
  ghost predicate Fit(filesystems: map<Key, nat>, t: Table) {
    forall k | k in filesystems :: k in t && filesystems[k] <= t[k].size
  }

  /** The probes find a filesystem that can be grown. */
  predicate FoundGrowable(signatures: seq<string>, tools: Tools) {
    Probed(signatures, tools).Some? && Probed(signatures, tools).value in {"ext2", "ext3", "ext4", "xfs"}
  }

  /** A source LVM can snapshot this way: thinly if it is thin, with space of its own otherwise. */
  predicate SnapshotSource(lv: LV, ty: VolumeType) {
    && !lv.segType.ThinPool? && !ThickSnapshot(lv)
    && (ty.StripedVolume? || (ty.DmThinVolume? && lv.segType.Thin?))
  }

  /** The volume of that name if it is the only one on the node; otherwise that there is none, or more than one. */
  ghost predicate Identified(t: Table, name: string, r: Result<Row, ExtendError>) {
    match r
    case Ok(row) => row.key.name == name && UniqueName(t, row.key) && t[row.key] == row.lv
    case Err(NoSuchVolume) => forall k | k in t :: k.name != name
    case Err(Ambiguous) => exists a, b :: a in t && b in t && a != b && a.name == name && b.name == name
    case _ => false
  }

  lemma NotUnique(t: Table, name: string, r: Result<Row, ExtendError>)
    requires Identified(t, name, r) && r.Err?
    ensures forall k: Key | k.name == name :: !UniqueName(t, k)
  {
  }

  /** Two rows of one name: no volume of that name is unique. */
  lemma TwoRows(rows: seq<Row>, t: Table, a: nat, b: nat)
    requires Shows(rows, t) && a < b < |rows| && rows[a].key.name == rows[b].key.name
    ensures Identified(t, rows[a].key.name, Err(Ambiguous))
  {
    assert rows[a].key in t && rows[b].key in t && rows[a].key != rows[b].key;
  }

  lemma NoRow(rows: seq<Row>, t: Table, name: string)
    requires Shows(rows, t) && forall i | 0 <= i < |rows| :: rows[i].key.name != name
    ensures Identified(t, name, Err(NoSuchVolume))
  {
    forall k | k in t ensures k.name != name {
      var i :| 0 <= i < |rows| && rows[i].key == k;
    }
  }

  lemma OneRow(rows: seq<Row>, t: Table, hit: nat)
    requires Shows(rows, t) && hit < |rows|
    requires forall j | 0 <= j < |rows| && j != hit :: rows[j].key.name != rows[hit].key.name
    ensures Identified(t, rows[hit].key.name, Ok(rows[hit]))
  {
    forall k | k in t && k.name == rows[hit].key.name ensures k == rows[hit].key {
      var i :| 0 <= i < |rows| && rows[i].key == k;
    }
  }

  lemma PoolAttempt(t: Table, vg: string, o: Outcome)
    requires PoolKey(vg) !in t
    ensures PoolMade(t, TableAfter(t, CreatePool(vg), o), vg)
    ensures match ReplyOf(t, CreatePool(vg), o)
            case Done => PoolReady(TableAfter(t, CreatePool(vg), o), vg)
            case CommandFailed => TableAfter(t, CreatePool(vg), o) == t
            case CommandTimedOut => true
  {
  }

  lemma AttemptRolledBack(before: Table, left: Table, after: Table, vg: string)
    requires WellFormed(before) && PoolMade(before, left, vg)
    requires || after == left
             || (PoolKey(vg) in left && left[PoolKey(vg)].segType.Linear? && after == Removed(left, PoolKey(vg)))
    requires PoolKey(vg) !in before
    ensures after == left || after == before
    ensures OnlyGains(before, after, {PoolKey(vg)})
  {
    if after != left {
      HalfPoolGoesAlone(before, vg, left[PoolKey(vg)]);
    }
  }
}
