/**
 Formatting a volume at publish time: a filesystem is made only on a device that carries no signature, whatever
 the probes report, as long as a successful wipefs report is truthful.
 */
module Filesystem {
  import opened Wrappers
  import opened Text

  const BLKID_NOT_FOUND := 2

  /** blkid may report a type, miss a signature, or fail in other ways; an error may carry no exit status. */
  datatype Blkid = BlkidPrints(output: string) | BlkidExits(status: int) | BlkidBroken

  /** A successful report lists the device's signatures; other runs fail or print something unusable. */
  datatype Wipefs = WipefsReports | WipefsFails | WipefsWithoutArray

  /** A failed mkfs may have left anything on a device that was blank. */
  datatype Mkfs = MkfsSucceeds | MkfsFails(left: seq<string>)

  datatype Tools = Tools(blkid: Blkid, wipefs: Wipefs, mkfs: Mkfs)

  datatype FsError = ProbeError | OtherFilesystem(found: string) | MkfsError

  /** One run of mkfs: the signatures it met and whether it succeeded. */
  datatype Format = Format(met: seq<string>, ok: bool)

  datatype DeviceState = DeviceState(signatures: seq<string>, formats: seq<Format>)

  /** The filesystems that can be grown. */
  const GROWABLE := {"ext2", "ext3", "ext4", "xfs"}

  /** How resize2fs or xfs_growfs ends: the filesystem fills its device, or has grown by some part and stopped. */
  datatype Growth = Grows | StopsAfter(part: nat)

  /** The size of a filesystem after its tool ran. */
  function GrownSize(was: nat, device: nat, growth: Growth): nat {
    match growth
    case Grows => device
    case StopsAfter(part) => if was + part <= device then was + part else if was <= device then device else was
  }

  function DefaultFilesystemType(fsType: string): string {
    if fsType == "" then "ext4" else fsType
  }

  /** What the two probes establish about a device: its filesystem type, "" for a blank device, None for neither. */
  function Probed(signatures: seq<string>, tools: Tools): Option<string> {
    match tools.blkid
    case BlkidPrints(output) => if TrimSpace(output) == "" then None else Some(TrimSpace(output))
    case BlkidExits(status) =>
      if status == BLKID_NOT_FOUND && tools.wipefs.WipefsReports? then Reported(signatures) else None
    case BlkidBroken => None
  }

  /** What a truthful report says: nothing, or a single filesystem; several signatures are no answer. */
  function Reported(signatures: seq<string>): Option<string> {
    if signatures == [] then Some("")
    else if |signatures| == 1 && TrimSpace(signatures[0]) != "" then Some(TrimSpace(signatures[0]))
    else None
  }

  /** What counts as found: what blkid prints, or a single signature where blkid finds none, both without outer spaces. */
  lemma FoundMeans(signatures: seq<string>, tools: Tools, fsType: string)
    requires fsType != ""
    ensures Probed(signatures, tools) == Some(fsType) <==>
              || (tools.blkid.BlkidPrints? && TrimSpace(tools.blkid.output) == fsType)
              || (tools.blkid == BlkidExits(2) && tools.wipefs == WipefsReports && |signatures| == 1
                  && TrimSpace(signatures[0]) == fsType)
  {
  }

  /** Whatever blkid says or misses, only a blank device is taken for blank. */
  lemma BlankIsBlank(signatures: seq<string>, tools: Tools)
    ensures Probed(signatures, tools) == Some("") <==>
              signatures == [] && tools.blkid == BlkidExits(BLKID_NOT_FOUND) && tools.wipefs == WipefsReports
  {
  }

  /** One publish attempt: nothing, or one mkfs on a blank device. */
  ghost predicate Attempted(before: DeviceState, after: DeviceState) {
    || after == before
    || exists ok: bool ::
         && before.signatures == []
         && after.formats == before.formats + [Format([], ok)]
         && (ok ==> after.signatures != [])
  }

  class Device {
    var signatures: seq<string>
    ghost var formats: seq<Format>

    constructor (signatures: seq<string>)
      ensures State() == DeviceState(signatures, [])
    {
      this.signatures, this.formats := signatures, [];
    }

    ghost function State(): DeviceState
      reads this
    {
      DeviceState(signatures, formats)
    }

    /** The empty type means that wipefs confirmed a blank device. */
    method GetFilesystemTypeFromWipefs(wipefs: Wipefs) returns (r: Result<string, FsError>)
      ensures r == Ok("") ==> signatures == []
      ensures if wipefs.WipefsReports? && Reported(signatures).Some? then r == Ok(Reported(signatures).value)
              else r == Err(ProbeError)
    {
      if wipefs == WipefsFails {
        return Err(ProbeError);
      }
      if wipefs == WipefsWithoutArray {
        return Err(ProbeError);
      }
      if |signatures| == 0 {
        return Ok("");
      }
      if |signatures| != 1 {
        return Err(ProbeError);
      }
      var fsType := TrimSpace(signatures[0]);
      return if fsType == "" then Err(ProbeError) else Ok(fsType);
    }

    method GetFilesystemType(tools: Tools) returns (r: Result<string, FsError>)
      ensures r == Ok("") ==> signatures == []
      ensures match Probed(signatures, tools)
              case Some(fsType) => r == Ok(fsType)
              case None => r == Err(ProbeError)
    {
      match tools.blkid
      case BlkidPrints(output) =>
        var fsType := TrimSpace(output);
        return if fsType == "" then Err(ProbeError) else Ok(fsType);
      case BlkidExits(status) =>
        if status == BLKID_NOT_FOUND {
          r := GetFilesystemTypeFromWipefs(tools.wipefs);
        } else {
          return Err(ProbeError);
        }
      case BlkidBroken =>
        return Err(ProbeError);
    }

    /** ensureFilesystem: formats only when both probes say the device is blank. */
    method EnsureFilesystem(fsType: string, tools: Tools) returns (err: Option<FsError>)
      requires fsType != ""
      modifies this
      ensures Attempted(old(State()), State())
      // success: a filesystem of the type was reported, or has just been made
      ensures err == None ==>
                || (State() == old(State())
                    && ((tools.blkid.BlkidPrints? && TrimSpace(tools.blkid.output) == fsType)
                        || (|signatures| == 1 && TrimSpace(signatures[0]) == fsType)))
                || (signatures == [fsType] && formats == old(formats) + [Format([], true)])
      // a filesystem of another type is refused, one of the wanted type is accepted, and neither is touched
      ensures Probed(old(signatures), tools).Some? && Probed(old(signatures), tools).value != "" ==>
                var found := Probed(old(signatures), tools).value;
                State() == old(State()) && err == if found == fsType then None else Some(OtherFilesystem(found))
      // a blank device that both probes recognise as blank is formatted
      ensures old(signatures) == [] && tools == Tools(BlkidExits(BLKID_NOT_FOUND), WipefsReports, MkfsSucceeds) ==>
                err == None && signatures == [fsType]
    {
      var existing := GetFilesystemType(tools);
      if existing.Err? {
        return Some(existing.error);
      }
      if existing.value != "" && existing.value != fsType {
        return Some(OtherFilesystem(existing.value));
      }
      if existing.value != "" {
        return None;
      }
      ghost var before := State();
      match tools.mkfs
      case MkfsSucceeds =>
        formats, signatures := formats + [Format(signatures, true)], [fsType];
        assert State().formats == before.formats + [Format([], true)];
        return None;
      case MkfsFails(left) =>
        formats, signatures := formats + [Format(signatures, false)], left;
        assert State().formats == before.formats + [Format([], false)];
        return Some(MkfsError);
    }

    /** What mountLV does before it mounts. */
    method PrepareForMount(fsType: string, tools: Tools) returns (err: Option<FsError>)
      modifies this
      ensures Attempted(old(State()), State())
      // a publish without a type formats a blank device with ext4 and accepts no other filesystem
      ensures var wanted := if fsType == "" then "ext4" else fsType;
              && (old(signatures) == [] && tools == Tools(BlkidExits(BLKID_NOT_FOUND), WipefsReports, MkfsSucceeds) ==>
                    err == None && signatures == [wanted])
              && (Probed(old(signatures), tools) == Some(wanted) ==> err == None && State() == old(State()))
              && (Probed(old(signatures), tools).Some? && Probed(old(signatures), tools).value !in {"", wanted} ==>
                    err == Some(OtherFilesystem(Probed(old(signatures), tools).value)) && State() == old(State()))
    {
      err := EnsureFilesystem(DefaultFilesystemType(fsType), tools);
    }
  }

  // ---------------------------------------------------------------- over any run of attempts

  ghost predicate Attempts(states: seq<DeviceState>) {
    forall i | 0 <= i < |states| - 1 :: Attempted(states[i], states[i + 1])
  }

  predicate Succeeded(formats: seq<Format>) {
    exists i | 0 <= i < |formats| :: formats[i].ok
  }

  /** A device with a signature keeps it, and is never formatted again. */
  lemma {:induction false} SignatureStays(states: seq<DeviceState>, m: nat, n: nat)
    requires Attempts(states) && m <= n < |states| && states[m].signatures != []
    ensures states[n] == states[m]
  {
    if m < n {
      SignatureStays(states, m, n - 1);
      assert Attempted(states[n - 1], states[n]);
    }
  }

  /** Every mkfs met a blank device, at most one mkfs succeeded, and after a success the device has a signature. */
  lemma {:induction false} AtMostOneFormat(states: seq<DeviceState>, n: nat)
    requires Attempts(states) && n < |states| && states[0].formats == []
    ensures forall i | 0 <= i < |states[n].formats| :: states[n].formats[i].met == []
    ensures forall i | 0 <= i < |states[n].formats| - 1 :: !states[n].formats[i].ok
    ensures Succeeded(states[n].formats) ==> states[n].signatures != []
  {
    if n > 0 {
      AtMostOneFormat(states, n - 1);
      assert Attempted(states[n - 1], states[n]);
      var before := states[n - 1].formats;
      assert !Succeeded(before) ==> forall i | 0 <= i < |before| :: !before[i].ok;
    }
  }
}
