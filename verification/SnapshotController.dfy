/**
 CreateSnapshot and DeleteSnapshot as they run in one call, with others acting between their requests. Every
 method is a path of the step system, and a call that is cut short at any point leaves a prefix of that path.
 */
module SnapshotController {
  import opened Wrappers
  import opened DriverNames
  import opened SnapshotRecords
  import opened SnapshotSystem

  /** Others act, then one request is answered. helper: how the helper pod run ends. */
  datatype Turn = Turn(others: seq<Label>, fate: Fate, helper: Result<(), Code>)

  /** What reading a volume's PV gives: its absence, an API failure, unusable metadata, or the placement. */
  datatype PVRead = PVMissing | PVUnavailable | PVMalformed | PVAt(nodeName: string, vgName: string)

  /** A VolumeSnapshotContent: made from a volume, or pre-existing with optional location annotations. */
  datatype Content =
    | Dynamic(volumeHandle: string)
    | PreExisting(sourceHandle: string, nodeAnnotation: string, vgAnnotation: string)

  function Owner(l: Label): Option<CallId> {
    match l
    case BeginCreate(c, _) => Some(c)
    case WriteRecord(c, _) => Some(c)
    case ReadBack(c, _) => Some(c)
    case StartHelper(c) => Some(c)
    case BeginDelete(c, _) => Some(c)
    case Resolve(c, _) => Some(c)
    case Erase(c) => Some(c)
    case Forget(c, _) => Some(c)
    case Return(c) => Some(c)
    case _ => None
  }

  lemma OthersKeepCall(s: State, nameOf: Naming, l: Label, c: CallId)
    requires c in s.calls && Owner(l) != Some(c) && !l.Crash? && Step(s, nameOf, l).Some?
    ensures var t := Step(s, nameOf, l).value; c in t.calls && t.calls[c] == s.calls[c]
  {
  }

  /** recordSnapshotLocation's answer to a record that is already there. */
  function Conflict(existing: ConfigMap, desired: Location): Result<(), Code> {
    match Decode(existing, desired.handle)
    case Err(_) => Err(FailedPrecondition)
    case Ok(actual) => if actual == desired then Ok(()) else Err(AlreadyExists)
  }

  // ---------------------------------------------------------------- where a snapshot is, as the code resolves it

  /** What recording a place answers when nothing interferes. */
  function RecordAnswer(records: Records, nameOf: Naming, loc: Location): Result<(), Code> {
    if !ValidLocation(loc) then Err(FailedPrecondition)
    else if nameOf(loc.handle) in records then Conflict(records[nameOf(loc.handle)], loc)
    else Ok(())
  }

  /** The requests that recording takes. */
  function RecordTurns(records: Records, nameOf: Naming, loc: Location): nat {
    if !ValidLocation(loc) then 0 else if nameOf(loc.handle) in records then 2 else 1
  }

  function RecordsAfter(records: Records, nameOf: Naming, loc: Location): Records {
    if ValidLocation(loc) && nameOf(loc.handle) !in records then records[nameOf(loc.handle) := Encode(loc)] else records
  }

  /** The answer of lookupSnapshotLocation. An unreadable record is an error. */
  datatype LookupResult = LookupFailed | NotRecorded | Found(loc: Location)

  function LookupIn(records: Records, nameOf: Naming, handle: string): LookupResult {
    match Recorded(records, nameOf, handle)
    case None => NotRecorded
    case Some(Ok(loc)) => Found(loc)
    case Some(Err(_)) => LookupFailed
  }

  /** A deletion target, nothing to do, or an error. */
  type Resolution = Result<Option<Location>, Code>

  function ResolvePreExisting(handle: string, content: Content, lookup: LookupResult): (r: Resolution)
    requires content.PreExisting?
    ensures r != Ok(None)
  {
    var node, vg := content.nodeAnnotation, content.vgAnnotation;
    if (node == "") != (vg == "") then Err(FailedPrecondition)
    else if node != "" then
      if ValidVGName(vg) then Ok(Some(Location(handle, node, vg))) else Err(FailedPrecondition)
    else match lookup
      case LookupFailed => Err(Unavailable)
      case NotRecorded => Err(FailedPrecondition)
      case Found(loc) => Ok(Some(loc))
  }

  function ResolveDynamic(handle: string, pv: PVRead, lookup: LookupResult): Resolution {
    match pv
    case PVAt(node, vg) => Ok(Some(Location(handle, node, vg)))
    case PVUnavailable => Err(Unavailable)
    case _ =>
      match lookup
      case LookupFailed => Err(Unavailable)
      case Found(loc) => Ok(Some(loc))
      case NotRecorded => if pv.PVMissing? then Ok(None) else Err(FailedPrecondition)
  }

  function ResolveForDelete(handle: string, content: Content, pv: PVRead, lookup: LookupResult): Resolution {
    match content
    case PreExisting(source, _, _) =>
      if source == "" then Err(FailedPrecondition) else ResolvePreExisting(handle, content, lookup)
    case Dynamic(volume) =>
      if volume == "" then Err(FailedPrecondition) else ResolveDynamic(handle, pv, lookup)
  }

  /** The place told by the annotations or by the PV, if any; it takes precedence over the record. */
  function Told(handle: string, content: Content, pv: PVRead): Option<Location> {
    match content
    case PreExisting(_, node, vg) => if node != "" && vg != "" then Some(Location(handle, node, vg)) else None
    case Dynamic(_) => if pv.PVAt? then Some(Location(handle, pv.nodeName, pv.vgName)) else None
  }

  /** A target is the told place or, when nothing is told, the recorded one: there is no third source. */
  lemma TargetsAreToldOrRecorded(handle: string, content: Content, pv: PVRead, lookup: LookupResult, loc: Location)
    requires ResolveForDelete(handle, content, pv, lookup) == Ok(Some(loc))
    ensures Told(handle, content, pv) == Some(loc) || (Told(handle, content, pv) == None && lookup == Found(loc))
  {
  }

  /** A delete does nothing, successfully, exactly when the source volume is gone and no record exists. */
  lemma NothingToDelete(handle: string, content: Content, pv: PVRead, lookup: LookupResult)
    ensures ResolveForDelete(handle, content, pv, lookup) == Ok(None)
       <==> content.Dynamic? && content.volumeHandle != "" && pv == PVMissing && lookup == NotRecorded
  {
  }

  // ---------------------------------------------------------------- what a delete has to do, case by case

  /** A readable record of the handle names the place. */
  ghost predicate RecordedAt(records: Records, nameOf: Naming, handle: string, loc: Location) {
    nameOf(handle) in records && Decode(records[nameOf(handle)], handle) == Ok(loc)
  }

  /** The place where the LV has to be removed: told by a readable PV or by both annotations, or else recorded. */
  ghost predicate MustErase(records: Records, nameOf: Naming, handle: string, content: Content, pv: PVRead, loc: Location) {
    match content
    case Dynamic(volume) =>
      && volume != ""
      && (match pv
          case PVAt(node, vg) => loc == Location(handle, node, vg)
          case PVUnavailable => false
          case _ => RecordedAt(records, nameOf, handle, loc))
    case PreExisting(source, node, vg) =>
      && source != ""
      && (|| (node != "" && vg != "" && ValidVGName(vg) && loc == Location(handle, node, vg))
          || (node == "" && vg == "" && RecordedAt(records, nameOf, handle, loc)))
  }

  /** Why a delete has to be refused: handles and annotations that are unusable, a place that is not known or not readable. */
  ghost predicate MustRefuse(records: Records, nameOf: Naming, handle: string, content: Content, pv: PVRead, code: Code) {
    var recorded := nameOf(handle) in records;
    var readable := exists loc :: RecordedAt(records, nameOf, handle, loc);
    match content
    case Dynamic(volume) =>
      if volume == "" then code == FailedPrecondition
      else (match pv
            case PVAt(_, _) => false
            case PVUnavailable => code == Unavailable
            case PVMissing => recorded && !readable && code == Unavailable
            case PVMalformed => !readable && code == if recorded then Unavailable else FailedPrecondition)
    case PreExisting(source, node, vg) =>
      if source == "" || (node == "") != (vg == "") || (vg != "" && !ValidVGName(vg)) then code == FailedPrecondition
      else node == "" && !readable && code == if recorded then Unavailable else FailedPrecondition
  }

  /** The source volume is gone and nothing is recorded: the snapshot counts as deleted. */
  ghost predicate NothingKnown(records: Records, nameOf: Naming, handle: string, content: Content, pv: PVRead) {
    content.Dynamic? && content.volumeHandle != "" && pv == PVMissing && nameOf(handle) !in records
  }

  /** The requests before the helper: one if the record is read. */
  ghost function Lookups(content: Content, pv: PVRead): nat {
    match content
    case Dynamic(volume) => if volume != "" && (pv.PVMissing? || pv.PVMalformed?) then 1 else 0
    case PreExisting(source, node, vg) => if source != "" && node == "" && vg == "" then 1 else 0
  }

  /** The three cases are all there are, they exclude each other, and place and code are unique. */
  lemma ResolutionMeans(records: Records, nameOf: Naming, handle: string, content: Content, pv: PVRead)
    ensures var r := ResolveForDelete(handle, content, pv, LookupIn(records, nameOf, handle));
            && (forall loc :: MustErase(records, nameOf, handle, content, pv, loc) <==> r == Ok(Some(loc)))
            && (forall code :: MustRefuse(records, nameOf, handle, content, pv, code) <==> r == Err(code))
            && (NothingKnown(records, nameOf, handle, content, pv) <==> r == Ok(None))
  {
    if nameOf(handle) in records && Decode(records[nameOf(handle)], handle).Ok? {
      assert RecordedAt(records, nameOf, handle, Decode(records[nameOf(handle)], handle).value);
    }
  }

  // ---------------------------------------------------------------- the calls

  class Controller {
    const nameOf: Naming
    var s: State
    var turns: seq<Turn>
    ghost const start: State
    ghost var trace: seq<Label>

    ghost predicate Valid()
      reads this
    {
      Run(start, nameOf, trace) == Some(s)
    }

    ghost predicate Stands(c: CallId, pc: PC)
      reads this
    {
      Valid() && c in s.calls && s.calls[c] == pc
    }

    constructor (nameOf: Naming, s: State, turns: seq<Turn>)
      ensures Valid() && this.nameOf == nameOf && this.s == s && this.turns == turns && start == s && trace == []
    {
      this.nameOf, this.s, this.turns, this.start, this.trace := nameOf, s, turns, s, [];
    }

    method Advance(l: Label)
      requires Valid() && Step(s, nameOf, l).Some?
      modifies this`s, this`trace
      ensures Valid() && Some(s) == Step(old(s), nameOf, l) && trace == old(trace) + [l]
    {
      RunExtends(start, nameOf, trace, l);
      s, trace := Step(s, nameOf, l).value, trace + [l];
    }

    /** The next turn: others act first. When the script runs out, every request is answered. */
    method Yield(c: CallId) returns (turn: Turn)
      requires Valid() && c in s.calls
      modifies this
      ensures Stands(c, old(s.calls[c]))
      ensures old(trace) <= trace
      ensures Quiet(old(turns)) ==> s == old(s) && Quiet(turns)
      ensures Calm(old(turns)) ==> Calm(turns) && turn.fate.Answered?
      ensures turn.helper == HelperAnswer(old(turns)) && turns == Later(old(turns), 1)
    {
      if turns == [] {
        return Turn([], Answered, Ok(()));
      }
      turn, turns := turns[0], turns[1..];
      for i := 0 to |turn.others|
        invariant Stands(c, old(s.calls[c]))
        invariant old(trace) <= trace && turns == old(turns)[1..]
        invariant Quiet(old(turns)) ==> s == old(s)
      {
        var l := turn.others[i];
        if Owner(l) != Some(c) && !l.Crash? && Step(s, nameOf, l).Some? {
          OthersKeepCall(s, nameOf, l, c);
          Advance(l);
        }
      }
    }

    /** Creates the record, or accepts an identical one; every refusal ends the call. */
    method RecordSnapshotLocation(c: CallId, desired: Location) returns (r: Result<(), Code>)
      requires Stands(c, Located(desired))
      modifies this
      ensures Valid() && old(trace) <= trace
      ensures if r.Ok? then Stands(c, Ready(desired)) else c !in s.calls
      ensures Quiet(old(turns)) ==> RecordSpec(old(s.records), s.records, nameOf, desired, r)
      ensures Calm(old(turns)) ==>
                && Calm(turns)
                && turns == Later(old(turns), RecordTurns(old(s.records), nameOf, desired))
                && r == RecordAnswer(old(s.records), nameOf, desired)
                && s.records == RecordsAfter(old(s.records), nameOf, desired)
                && s.lvs == old(s.lvs) && s.helpers == old(s.helpers)
      // a place is refused unless its three parts are given and the group is valid; a valid one with a free name is recorded
      ensures var valid := desired.handle != "" && desired.nodeName != "" && ValidVGName(desired.vgName);
              && (!valid ==> r == Err(FailedPrecondition) && s.records == old(s.records))
              && (valid && Calm(old(turns)) && nameOf(desired.handle) !in old(s.records) ==>
                    r.Ok? && RecordsPlace(s.records, nameOf, desired))
    {
      if !ValidLocation(desired) {
        Advance(WriteRecord(c, Answered));
        return Err(FailedPrecondition);
      }
      var turn := Yield(c);
      EncodeDecode(desired, desired.handle);
      var taken := nameOf(desired.handle) in s.records;
      Advance(WriteRecord(c, turn.fate));
      if !turn.fate.Answered? {
        return Err(Unavailable);
      }
      if !taken {
        return Ok(());
      }
      if Quiet(old(turns)) { ConflictMeans(s.records, nameOf, desired); }
      r := ReadRecord(c, desired);
    }

    /** Reads the record that is in the way: identical is fine, anything else is refused. */
    method ReadRecord(c: CallId, desired: Location) returns (r: Result<(), Code>)
      requires Stands(c, Colliding(desired))
      modifies this
      ensures Valid() && old(trace) <= trace
      ensures if r.Ok? then Stands(c, Ready(desired)) else c !in s.calls
      ensures Quiet(old(turns)) ==> s.records == old(s.records) && s.lvs == old(s.lvs) && s.helpers == old(s.helpers)
      ensures Quiet(old(turns)) && nameOf(desired.handle) in s.records ==>
                r == Conflict(s.records[nameOf(desired.handle)], desired) || r == Err(Unavailable)
      ensures Calm(old(turns)) && nameOf(desired.handle) in s.records ==>
                Calm(turns) && turns == Later(old(turns), 1) && r == Conflict(s.records[nameOf(desired.handle)], desired)
      ensures r.Err? ==> r.error in {FailedPrecondition, AlreadyExists, Unavailable}
      ensures r.Ok? ==> RecordsPlace(s.records, nameOf, desired)
    {
      var turn := Yield(c);
      if !turn.fate.Answered? || nameOf(desired.handle) !in s.records {
        Advance(ReadBack(c, !turn.fate.Answered?));
        return Err(Unavailable);
      }
      r := Conflict(s.records[nameOf(desired.handle)], desired);
      ConflictMeans(s.records, nameOf, desired);
      Advance(ReadBack(c, false));
    }

    method LookupSnapshotLocation(c: CallId, handle: string) returns (r: LookupResult)
      requires Stands(c, Resolving(handle))
      modifies this
      ensures Stands(c, Resolving(handle)) && old(trace) <= trace
      ensures r.Found? ==> RecordsPlace(s.records, nameOf, r.loc) && r.loc.handle == handle
      ensures r == NotRecorded ==> nameOf(handle) !in s.records
      ensures Calm(old(turns)) ==>
                Calm(turns) && turns == Later(old(turns), 1) && s == old(s) && r == LookupIn(s.records, nameOf, handle)
    {
      var turn := Yield(c);
      if !turn.fate.Answered? {
        return LookupFailed;
      }
      if nameOf(handle) !in s.records {
        return NotRecorded;
      }
      var decoded := Decode(s.records[nameOf(handle)], handle);
      return if decoded.Ok? then Found(decoded.value) else LookupFailed;
    }

    /** A failure to delete the record is only logged. */
    method ForgetSnapshotLocation(c: CallId, target: Location)
      requires Stands(c, Erased(target))
      modifies this
      ensures Valid() && c !in s.calls && old(trace) <= trace
      ensures Quiet(old(turns)) ==>
                s.records == old(s.records) || s.records == old(s.records) - {nameOf(target.handle)}
      ensures Calm(old(turns)) ==> s.records == old(s.records) - {nameOf(target.handle)}
      ensures Quiet(old(turns)) ==> s.lvs == old(s.lvs) && s.helpers == old(s.helpers)
    {
      var turn := Yield(c);
      Advance(Forget(c, turn.fate));
    }

    /** The helper is only started once the record is there; the records name every LV when the call returns. */
    method CreateSnapshot(c: CallId, handle: string, volumeID: string, pv: PVRead, sizeKnown: bool)
      returns (r: Result<(), Code>)
      requires Valid() && c !in s.calls
      modifies this
      ensures Valid() && c !in s.calls && old(trace) <= trace
      ensures handle == "" || volumeID == "" ==> r == Err(InvalidArgument) && s == old(s)
      ensures handle != "" && volumeID != "" && !(pv.PVAt? && sizeKnown) ==>
                && s == old(s)
                && r == Err(match pv
                            case PVMissing => NotFound
                            case PVUnavailable => Unavailable
                            case _ => FailedPrecondition)
      // undisturbed, the place is recorded if it can be, and then and only then the helper is started there
      ensures Calm(old(turns)) && handle != "" && volumeID != "" && pv.PVAt? && sizeKnown ==>
                var loc := Location(handle, pv.nodeName, pv.vgName);
                var answer := RecordAnswer(old(s.records), nameOf, loc);
                && s.records == RecordsAfter(old(s.records), nameOf, loc)
                && s.helpers == (if answer.Ok? then old(s.helpers) + {loc} else old(s.helpers))
                && (r.Ok? ==> answer.Ok? && RecordsPlace(s.records, nameOf, loc))
                && (answer.Err? ==> r == answer)
      ensures r.Ok? ==> StartHelper(c) in trace[|old(trace)|..]
      ensures Initial(start, nameOf) && FairRun(start, nameOf, trace) ==> AllRecorded(s, nameOf)
    {
      if handle == "" || volumeID == "" {
        r := Err(InvalidArgument);
      } else if pv == PVMissing {
        r := Err(NotFound);
      } else if pv == PVUnavailable {
        r := Err(Unavailable);
      } else if pv == PVMalformed || !sizeKnown {
        r := Err(FailedPrecondition);
      } else {
        r := TakeSnapshot(c, Location(handle, pv.nodeName, pv.vgName));
      }
      if Initial(start, nameOf) && FairRun(start, nameOf, trace) {
        InvRun(start, nameOf, trace);
      }
    }

    method TakeSnapshot(c: CallId, loc: Location) returns (r: Result<(), Code>)
      requires Valid() && c !in s.calls
      modifies this
      ensures Valid() && c !in s.calls && old(trace) <= trace
      ensures r.Ok? ==> StartHelper(c) in trace[|old(trace)|..]
      // the helper is started exactly when the place is on record
      ensures Calm(old(turns)) ==>
                var answer := RecordAnswer(old(s.records), nameOf, loc);
                && (answer.Err? ==> r == answer)
                && (answer.Ok? ==>
                      r.Ok? == HelperAnswer(Later(old(turns), RecordTurns(old(s.records), nameOf, loc))).Ok?)
                && s.helpers == (if answer.Ok? then old(s.helpers) + {loc} else old(s.helpers))
                && s.records == RecordsAfter(old(s.records), nameOf, loc) && s.lvs == old(s.lvs)
    {
      Advance(BeginCreate(c, loc));
      var recorded := RecordSnapshotLocation(c, loc);
      if recorded.Err? {
        return Err(recorded.error);
      }
      r := RunSnapshotHelper(c, loc);
    }

    method RunSnapshotHelper(c: CallId, loc: Location) returns (r: Result<(), Code>)
      requires Stands(c, Ready(loc))
      modifies this
      ensures Valid() && c !in s.calls && old(trace) <= trace
      ensures StartHelper(c) in trace[|old(trace)|..]
      ensures r.Ok? == HelperAnswer(old(turns)).Ok? && (r.Err? ==> r == HelperAnswer(old(turns)))
      ensures Calm(old(turns)) ==>
                s.helpers == old(s.helpers) + {loc} && s.records == old(s.records) && s.lvs == old(s.lvs)
    {
      ghost var n := |trace|;
      Advance(StartHelper(c));
      var turn := Yield(c);
      Advance(Return(c));
      assert trace[n] == StartHelper(c);
      return turn.helper;
    }

    /** Removes the LV where it was told or recorded to be, and only then forgets the record. */
    method DeleteSnapshot(c: CallId, handle: string, content: Result<Option<Content>, ()>, pv: PVRead)
      returns (r: Result<(), Code>)
      requires Valid() && c !in s.calls
      modifies this
      ensures Valid() && c !in s.calls && old(trace) <= trace
      ensures handle == "" ==> r == Err(InvalidArgument) && s == old(s)
      ensures handle != "" && content == Ok(None) ==> r.Ok? && s == old(s)
      ensures handle != "" && content.Err? ==> r == Err(Unavailable) && s == old(s)
      // undisturbed, where there is a place: if the helper succeeds, exactly that LV and this handle's record go
      ensures Calm(old(turns)) && handle != "" && content.Ok? && content.value.Some? ==>
                forall loc | MustErase(old(s.records), nameOf, handle, content.value.value, pv, loc) ::
                  var helper := HelperAnswer(Later(old(turns), Lookups(content.value.value, pv)));
                  if helper.Ok? then r.Ok? && s.lvs == old(s.lvs) - {loc} && s.records == old(s.records) - {nameOf(handle)}
                  else r == helper && s.lvs == old(s.lvs) && s.records == old(s.records)
      // and where there is none, nothing changes, and the answer is the code of the case, or success
      ensures Calm(old(turns)) && handle != "" && content.Ok? && content.value.Some? ==>
                && (forall code | MustRefuse(old(s.records), nameOf, handle, content.value.value, pv, code) ::
                      r == Err(code) && s.lvs == old(s.lvs) && s.records == old(s.records))
                && (NothingKnown(old(s.records), nameOf, handle, content.value.value, pv) ==>
                      r.Ok? && s.lvs == old(s.lvs) && s.records == old(s.records))
      ensures Initial(start, nameOf) && FairRun(start, nameOf, trace) ==> AllRecorded(s, nameOf)
    {
      if handle == "" {
        r := Err(InvalidArgument);
      } else if content.Err? {
        r := Err(Unavailable);
      } else if content.value == None {
        r := Ok(());
      } else {
        ResolutionMeans(s.records, nameOf, handle, content.value.value, pv);
        Advance(BeginDelete(c, handle));
        var action, _ := DeleteSnapshotAction(c, handle, content.value.value, pv);
        if action.Err? {
          r := Err(action.error);
        } else if action.value == None {
          r := Ok(());
        } else {
          r := EraseSnapshot(c, action.value.value);
        }
      }
      if Initial(start, nameOf) && FairRun(start, nameOf, trace) {
        InvRun(start, nameOf, trace);
      }
    }

    /** Where to delete: annotations or PV first, the record otherwise. */
    method DeleteSnapshotAction(c: CallId, handle: string, content: Content, pv: PVRead)
      returns (r: Resolution, ghost lookup: LookupResult)
      requires Stands(c, Resolving(handle))
      modifies this
      ensures Valid() && old(trace) <= trace
      ensures if r.Ok? && r.value.Some? then Stands(c, Erasing(r.value.value)) else c !in s.calls
      ensures r.Ok? && r.value.Some? ==>
                || Told(handle, content, pv) == r.value
                || (Told(handle, content, pv) == None && RecordsPlace(s.records, nameOf, r.value.value)
                    && r.value.value.handle == handle)
      ensures r == ResolveForDelete(handle, content, pv, lookup)
      // when nothing interferes, the lookup is what the record says, and nothing changes
      ensures Calm(old(turns)) ==>
                && Calm(turns) && turns == Later(old(turns), Lookups(content, pv))
                && r == ResolveForDelete(handle, content, pv, LookupIn(old(s.records), nameOf, handle))
                && s.records == old(s.records) && s.lvs == old(s.lvs) && s.helpers == old(s.helpers)
      // case by case: where the LV is, why it is not known, or that there is nothing to do
      ensures Calm(old(turns)) ==>
                && (forall loc | MustErase(old(s.records), nameOf, handle, content, pv, loc) :: r == Ok(Some(loc)))
                && (forall code | MustRefuse(old(s.records), nameOf, handle, content, pv, code) :: r == Err(code))
                && (NothingKnown(old(s.records), nameOf, handle, content, pv) ==> r == Ok(None))
    {
      ResolutionMeans(s.records, nameOf, handle, content, pv);
      var record := NotRecorded;
      if NeedsRecord(content, pv) {
        record := LookupSnapshotLocation(c, handle);
      } else {
        RecordUnused(handle, content, pv, record, LookupIn(s.records, nameOf, handle));
      }
      lookup, r := record, ResolveForDelete(handle, content, pv, record);
      if r.Ok? && r.value.Some? {
        TargetsAreToldOrRecorded(handle, content, pv, lookup, r.value.value);
        Advance(Resolve(c, Told(handle, content, pv)));
      } else {
        Advance(Return(c));
      }
    }

    method EraseSnapshot(c: CallId, target: Location) returns (r: Result<(), Code>)
      requires Stands(c, Erasing(target))
      modifies this
      ensures Valid() && c !in s.calls && old(trace) <= trace
      ensures r.Ok? ==> Erase(c) in trace[|old(trace)|..]
      ensures r.Ok? == HelperAnswer(old(turns)).Ok? && (r.Err? ==> r == HelperAnswer(old(turns)))
      // the record goes exactly when the LV went
      ensures Calm(old(turns)) ==>
                && s.lvs == (if r.Ok? then old(s.lvs) - {target} else old(s.lvs))
                && s.records == if r.Ok? then old(s.records) - {nameOf(target.handle)} else old(s.records)
    {
      var turn := Yield(c);
      if turn.helper.Err? {
        Advance(Return(c));
        return Err(turn.helper.error);
      }
      ghost var n := |trace|;
      Advance(Erase(c));
      ForgetSnapshotLocation(c, target);
      assert trace[n] == Erase(c);
      return Ok(());
    }
  }

  /** The record is read only when neither annotations nor a readable PV decide. */
  predicate NeedsRecord(content: Content, pv: PVRead) {
    match content
    case PreExisting(source, node, vg) => source != "" && node == "" && vg == ""
    case Dynamic(volume) => volume != "" && !pv.PVAt? && !pv.PVUnavailable?
  }

  /** Otherwise the answer does not depend on it. */
  lemma RecordUnused(handle: string, content: Content, pv: PVRead, one: LookupResult, other: LookupResult)
    requires !NeedsRecord(content, pv)
    ensures ResolveForDelete(handle, content, pv, one) == ResolveForDelete(handle, content, pv, other)
  {
  }

  /** No other call and no environment event between this call's requests. */
  predicate Quiet(turns: seq<Turn>) {
    forall i | 0 <= i < |turns| :: turns[i].others == []
  }

  /** No interference, and every request to the API server is answered. */
  predicate Calm(turns: seq<Turn>) {
    forall i | 0 <= i < |turns| :: turns[i].others == [] && turns[i].fate.Answered?
  }

  /** How the helper pod run of the next turn ends. */
  function HelperAnswer(turns: seq<Turn>): Result<(), Code> {
    if turns == [] then Ok(()) else turns[0].helper
  }

  lemma ConflictMeans(records: Records, nameOf: Naming, desired: Location)
    requires nameOf(desired.handle) in records
    ensures Conflict(records[nameOf(desired.handle)], desired).Ok? <==> RecordsPlace(records, nameOf, desired)
    ensures Conflict(records[nameOf(desired.handle)], desired) == Err(AlreadyExists) <==>
              exists other: Location :: other != desired && other.handle == desired.handle
                                        && RecordsPlace(records, nameOf, other)
    ensures Conflict(records[nameOf(desired.handle)], desired) == Err(FailedPrecondition) <==>
              forall loc :: !RecordedAt(records, nameOf, desired.handle, loc)
  {
    var decoded := Decode(records[nameOf(desired.handle)], desired.handle);
    if decoded.Ok? {
      assert RecordedAt(records, nameOf, desired.handle, decoded.value);
      assert RecordsPlace(records, nameOf, decoded.value);
    }
  }
}
