/**
 The logical volumes of a node, and what the LVM tools do to them. A command may be refused, succeed, fail
 without effect, or be killed on timeout with nothing, half or all of its work done.
 */
module LvmTable {
  import opened Wrappers

  datatype SegType = Linear | Striped | Thin | ThinPool | OtherSegType

  datatype Key = Key(vg: string, name: string)

  /** origin: the LV this one is a snapshot of, or "". pool: the thin pool of a thin LV, or "". */
  datatype LV = LV(size: nat, segType: SegType, origin: string, pool: string, active: bool, healthy: bool)

  type Table = map<Key, LV>

  /** The volume types a StorageClass can ask for. */
  datatype VolumeType = StripedVolume | DmThinVolume | UnknownVolume

  function PoolKey(vg: string): Key {
    Key(vg, vg + "-thinpool")
  }

  // ---------------------------------------------------------------- well-formed tables

  predicate ThickSnapshot(lv: LV) {
    lv.origin != "" && !lv.segType.Thin?
  }

  /** An origin is a volume of the group and no thick snapshot; a thin LV lives in a pool of the group. */
  ghost predicate WellFormedAt(t: Table, k: Key)
    requires k in t
  {
    && k.name != ""
    && (t[k].origin != "" ==> Key(k.vg, t[k].origin) in t && !ThickSnapshot(t[Key(k.vg, t[k].origin)])
                              && !t[Key(k.vg, t[k].origin)].segType.ThinPool?
                              && t[k].origin != k.name)
    && (t[k].segType.Thin? <==> t[k].pool != "")
    && (t[k].segType.Thin? ==> Key(k.vg, t[k].pool) in t && t[Key(k.vg, t[k].pool)].segType.ThinPool?)
    && (t[k].segType.ThinPool? ==> t[k].origin == "")
  }

  ghost predicate WellFormed(t: Table) {
    forall k | k in t :: WellFormedAt(t, k)
  }

  predicate ThinIn(t: Table, k: Key, vg: string, pool: string) {
    k in t && k.vg == vg && t[k].segType.Thin? && t[k].pool == pool
  }

  /** The thin volumes of a pool, as thin_count reports them. */
  function ThinVolumes(t: Table, vg: string, pool: string): set<Key> {
    set k | k in t && ThinIn(t, k, vg, pool)
  }

  // ---------------------------------------------------------------- removal

  /** What lvremove takes with k: the volumes of a pool, and the thick snapshots of whatever goes. */
  predicate GoesWith(t: Table, k: Key, j: Key)
    requires k in t && j in t
  {
    || j == k
    || (t[k].segType.ThinPool? && ThinIn(t, j, k.vg, k.name))
  }

  predicate Gone(t: Table, k: Key, j: Key)
    requires k in t && j in t
  {
    || GoesWith(t, k, j)
    || (ThickSnapshot(t[j]) && Key(j.vg, t[j].origin) in t && GoesWith(t, k, Key(j.vg, t[j].origin)))
  }

  /** A thin snapshot outlives its origin and then has none. */
  function Orphaned(t: Table, k: Key, j: Key): LV
    requires k in t && j in t
  {
    if t[j].origin != "" && Key(j.vg, t[j].origin) in t && Gone(t, k, Key(j.vg, t[j].origin))
    then t[j].(origin := "")
    else t[j]
  }

  function Removed(t: Table, k: Key): Table
    requires k in t
  {
    map j | j in t && !Gone(t, k, j) :: Orphaned(t, k, j)
  }

  /** Nothing depends on k: no snapshot has it as origin and no thin volume has it as pool. */
  ghost predicate Unused(t: Table, k: Key) {
    forall j | j in t && j.vg == k.vg :: t[j].origin != k.name && (t[j].segType.Thin? ==> t[j].pool != k.name)
  }

  /** Removing a volume on which nothing depends removes just that volume. */
  lemma RemovedUnused(t: Table, k: Key)
    requires WellFormed(t) && k in t && Unused(t, k)
    ensures Removed(t, k) == t - {k}
  {
    forall j | j in t ensures Gone(t, k, j) <==> j == k {
      assert WellFormedAt(t, j);
    }
    forall j | j in t && j != k ensures Orphaned(t, k, j) == t[j] {
      assert WellFormedAt(t, j);
    }
  }

  /** A volume not yet in the table has nothing depending on it. */
  lemma AbsentUnused(t: Table, k: Key)
    requires WellFormed(t) && k !in t && k.name != ""
    ensures Unused(t, k)
  {
    forall j | j in t && j.vg == k.vg ensures t[j].origin != k.name && (t[j].segType.Thin? ==> t[j].pool != k.name) {
      assert WellFormedAt(t, j);
      assert Key(j.vg, k.name) == k;
    }
  }

  lemma RemovedWellFormed(t: Table, k: Key)
    requires WellFormed(t) && k in t
    ensures WellFormed(Removed(t, k)) && k !in Removed(t, k)
  {
    var r := Removed(t, k);
    forall j | j in r ensures WellFormedAt(r, j) {
      assert WellFormedAt(t, j);
      if t[j].origin != "" {
        assert WellFormedAt(t, Key(j.vg, t[j].origin));
      }
      if t[j].segType.Thin? {
        PoolStays(t, k, j);
      }
    }
  }

  /** A thin volume that stays keeps its pool. */
  lemma PoolStays(t: Table, k: Key, j: Key)
    requires WellFormed(t) && k in t && j in t && t[j].segType.Thin? && !Gone(t, k, j)
    ensures Key(j.vg, t[j].pool) in t && !Gone(t, k, Key(j.vg, t[j].pool))
    ensures t[Key(j.vg, t[j].pool)].origin == ""
  {
    assert WellFormedAt(t, j);
    assert WellFormedAt(t, Key(j.vg, t[j].pool));
  }

  /** Which volumes a removal leaves, and how: all that neither are k nor hang on it, as they were up to a lost origin. */
  lemma RemovedKeeps(t: Table, k: Key, j: Key)
    requires WellFormed(t) && k in t && !t[k].segType.ThinPool? && j in t
    ensures j in Removed(t, k) <==> j != k && !(ThickSnapshot(t[j]) && j.vg == k.vg && t[j].origin == k.name)
    ensures j in Removed(t, k) ==>
              Removed(t, k)[j] == t[j].(origin := if j.vg == k.vg && t[j].origin == k.name then "" else t[j].origin)
  {
    assert WellFormedAt(t, j);
    if t[j].origin != "" {
      assert WellFormedAt(t, Key(j.vg, t[j].origin));
    }
  }

  // ---------------------------------------------------------------- commands

  datatype Command =
    | CreatePool(vg: string)
    | CreateThin(vg: string, name: string, size: nat)
    | CreateStriped(vg: string, name: string, size: nat, stripes: nat)
    | TakeSnapshot(vg: string, name: string, origin: string, space: Option<nat>)
    | Remove(key: Key)
    | Extend(key: Key, size: nat)

  /** What the command makes of the table when it does its work; None when the tool refuses it. slack is rounding. */
  function Effect(t: Table, c: Command, slack: nat): Option<Table> {
    match c
    case CreatePool(vg) =>
      if PoolKey(vg) in t then None
      else Some(t[PoolKey(vg) := LV(slack, ThinPool, "", "", true, true)])
    case CreateThin(vg, name, size) =>
      if name == "" || Key(vg, name) in t || PoolKey(vg) !in t || !t[PoolKey(vg)].segType.ThinPool? then None
      else Some(t[Key(vg, name) := LV(size + slack, Thin, "", PoolKey(vg).name, true, true)])
    case CreateStriped(vg, name, size, stripes) =>
      if name == "" || Key(vg, name) in t || stripes == 0 then None
      else Some(t[Key(vg, name) := LV(size + slack, if stripes == 1 then Linear else Striped, "", "", true, true)])
    case TakeSnapshot(vg, name, origin, space) =>
      if name == "" || origin == "" || Key(vg, name) in t || Key(vg, origin) !in t then None
      else
        var source := t[Key(vg, origin)];
        if source.segType.ThinPool? || ThickSnapshot(source) then None
        else if space.Some? then
          Some(t[Key(vg, name) := LV(space.value + slack, Linear, origin, "", false, true)])
        else if source.segType.Thin? then
          Some(t[Key(vg, name) := source.(origin := origin)])
        else None
    case Remove(key) => if key in t then Some(Removed(t, key)) else None
    case Extend(key, size) =>
      if key in t && t[key].size < size then Some(t[key := t[key].(size := size + slack)]) else None
  }

  /** A command that changes volumes, with the table it met. */
  datatype Event = Event(command: Command, met: Table)

  datatype Fate = Replied | Failed | TimedOut(work: Work)
  datatype Work = Nothing | Half | All

  datatype Outcome = Outcome(fate: Fate, slack: nat)

  datatype Reply = Done | CommandFailed | CommandTimedOut

  /** Half-way through, pool creation has made a linear LV under the pool's name. */
  function HalfPool(slack: nat): LV {
    LV(slack, Linear, "", "", true, true)
  }

  function TableAfter(t: Table, c: Command, o: Outcome): Table {
    var effect := Effect(t, c, o.slack);
    if effect.None? then t
    else match o.fate
      case Replied => effect.value
      case Failed => t
      case TimedOut(Nothing) => t
      case TimedOut(Half) => if c.CreatePool? then t[PoolKey(c.vg) := HalfPool(o.slack)] else t
      case TimedOut(All) => effect.value
  }

  function ReplyOf(t: Table, c: Command, o: Outcome): Reply {
    if Effect(t, c, o.slack).None? || o.fate.Failed? then CommandFailed
    else if o.fate.Replied? then Done
    else CommandTimedOut
  }

  lemma AddedWellFormed(t: Table, k: Key, lv: LV)
    requires WellFormed(t) && k !in t && WellFormedAt(t[k := lv], k)
    ensures WellFormed(t[k := lv])
  {
    forall j | j in t ensures WellFormedAt(t[k := lv], j) {
      assert WellFormedAt(t, j);
    }
  }

  lemma ResizedWellFormed(t: Table, k: Key, size: nat)
    requires WellFormed(t) && k in t
    ensures WellFormed(t[k := t[k].(size := size)])
  {
    forall j | j in t ensures WellFormedAt(t[k := t[k].(size := size)], j) {
      assert WellFormedAt(t, j);
    }
  }

  lemma SnapshotWellFormed(t: Table, c: Command, slack: nat)
    requires WellFormed(t) && c.TakeSnapshot? && Effect(t, c, slack).Some?
    ensures WellFormed(Effect(t, c, slack).value)
  {
    var k := Key(c.vg, c.name);
    assert WellFormedAt(t, Key(c.vg, c.origin));
    AddedWellFormed(t, k, Effect(t, c, slack).value[k]);
  }

  lemma CreatedWellFormed(t: Table, c: Command, slack: nat)
    requires WellFormed(t) && (c.CreatePool? || c.CreateThin? || c.CreateStriped?) && Effect(t, c, slack).Some?
    ensures WellFormed(Effect(t, c, slack).value)
  {
    var k := if c.CreatePool? then PoolKey(c.vg) else Key(c.vg, c.name);
    AddedWellFormed(t, k, Effect(t, c, slack).value[k]);
  }

  lemma EffectWellFormed(t: Table, c: Command, slack: nat)
    requires WellFormed(t) && Effect(t, c, slack).Some?
    ensures WellFormed(Effect(t, c, slack).value)
  {
    match c
    case TakeSnapshot(_, _, _, _) => SnapshotWellFormed(t, c, slack);
    case Remove(key) =>
      RemovedWellFormed(t, key);
      assert Effect(t, c, slack).value == Removed(t, key);
    case Extend(key, size) =>
      ResizedWellFormed(t, key, size + slack);
      assert Effect(t, c, slack).value == t[key := t[key].(size := size + slack)];
    case _ => CreatedWellFormed(t, c, slack);
  }

  /** Commands keep the table well formed, whatever their outcome. */
  lemma CommandWellFormed(t: Table, c: Command, o: Outcome)
    requires WellFormed(t)
    ensures WellFormed(TableAfter(t, c, o))
  {
    if Effect(t, c, o.slack).Some? {
      EffectWellFormed(t, c, o.slack);
      if c.CreatePool? {
        AddedWellFormed(t, PoolKey(c.vg), HalfPool(o.slack));
      }
    }
  }
}
