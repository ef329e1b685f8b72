/** The record of where a snapshot lives: one immutable ConfigMap per snapshot handle. */
module SnapshotRecords {
  import opened Wrappers
  import opened DriverNames

  const LOCATION_LABEL := "lvm.driver.harvesterhci.io/snapshot-location"
  const HANDLE_KEY := "snapshotHandle"
  const NODE_KEY := "nodeName"
  const VG_KEY := "vgName"

  datatype Location = Location(handle: string, nodeName: string, vgName: string)

  predicate ValidLocation(l: Location) {
    l.handle != "" && l.nodeName != "" && l.vgName != "" && ValidVGName(l.vgName)
  }

  datatype ConfigMap = ConfigMap(labels: map<string, string>, immutable: bool, data: map<string, string>)

  /** The ConfigMaps of the driver's namespace by name. The name of a handle's record is any function of it. */
  type Records = map<string, ConfigMap>
  type Naming = string -> string

  function Encode(l: Location): ConfigMap {
    ConfigMap(map[LOCATION_LABEL := "true"], true,
              map[HANDLE_KEY := l.handle, NODE_KEY := l.nodeName, VG_KEY := l.vgName])
  }

  datatype DecodeError = NotARecord | OtherHandle(recorded: string) | BadLocation

  /** snapshotLocationFromConfigMap. */
  function Decode(record: ConfigMap, handle: string): Result<Location, DecodeError> {
    var recorded := Location(Lookup(record.data, HANDLE_KEY), Lookup(record.data, NODE_KEY), Lookup(record.data, VG_KEY));
    if Lookup(record.labels, LOCATION_LABEL) != "true" then Err(NotARecord)
    else if recorded.handle != handle then Err(OtherHandle(recorded.handle))
    else if !ValidLocation(recorded) then Err(BadLocation)
    else Ok(recorded)
  }

  /** A valid location survives the record; and only its own handle can read it. */
  lemma EncodeDecode(l: Location, handle: string)
    requires ValidLocation(l)
    ensures Decode(Encode(l), handle) == if handle == l.handle then Ok(l) else Err(OtherHandle(l.handle))
  {
    var data := Encode(l).data;
    assert HANDLE_KEY[0] == 's' && NODE_KEY[0] == 'n' && VG_KEY[0] == 'v';
    assert data[HANDLE_KEY] == l.handle && data[NODE_KEY] == l.nodeName && data[VG_KEY] == l.vgName;
  }

  /** A record is read as a location of the handle exactly if it is labelled and names the handle and a valid place. */
  lemma DecodeMeans(record: ConfigMap, handle: string, l: Location)
    ensures Decode(record, handle) == Ok(l) <==>
              && LOCATION_LABEL in record.labels && record.labels[LOCATION_LABEL] == "true"
              && handle != "" && l == Location(handle, l.nodeName, l.vgName) && l.nodeName != "" && ValidVGName(l.vgName)
              && HANDLE_KEY in record.data && record.data[HANDLE_KEY] == handle
              && NODE_KEY in record.data && record.data[NODE_KEY] == l.nodeName
              && VG_KEY in record.data && record.data[VG_KEY] == l.vgName
  {
  }

  /** The location recorded for a handle: read by name, refused unless it is that handle's. */
  function Recorded(records: Records, nameOf: Naming, handle: string): Option<Result<Location, DecodeError>> {
    if nameOf(handle) in records then Some(Decode(records[nameOf(handle)], handle)) else None
  }

  /** For any naming, even a colliding one, reading a handle never gives another handle's location. */
  lemma ReadsOwnLocationOnly(records: Records, nameOf: Naming, handle: string)
    requires Recorded(records, nameOf, handle).Some? && Recorded(records, nameOf, handle).value.Ok?
    ensures Recorded(records, nameOf, handle).value.value.handle == handle
    ensures ValidLocation(Recorded(records, nameOf, handle).value.value)
  {
  }

  predicate RecordsPlace(records: Records, nameOf: Naming, l: Location) {
    Recorded(records, nameOf, l.handle) == Some(Ok(l))
  }

  // ---------------------------------------------------------------- writing and forgetting

  /** What recording a location may do to the records, and with which result. */
  ghost predicate RecordSpec(before: Records, after: Records, nameOf: Naming, l: Location, r: Result<(), Code>) {
    // a record is written at most once and nothing else changes
    && (after == before || (nameOf(l.handle) !in before && ValidLocation(l) && after == before[nameOf(l.handle) := Encode(l)]))
    && (r.Ok? ==> RecordsPlace(after, nameOf, l))
    && (r == Err(FailedPrecondition) ==>
          && after == before
          && (!ValidLocation(l) || (nameOf(l.handle) in before && Decode(before[nameOf(l.handle)], l.handle).Err?)))
    && (r == Err(AlreadyExists) ==>
          && after == before
          && exists other: Location ::
               other != l && other.handle == l.handle && RecordsPlace(before, nameOf, other))
    && (r.Err? ==> r.error in {FailedPrecondition, AlreadyExists, Unavailable})
  }

  /** Recording twice is recording once: the second call finds the first one's record. */
  lemma RecordTwice(t0: Records, t1: Records, t2: Records, nameOf: Naming, l: Location, r: Result<(), Code>)
    requires RecordSpec(t0, t1, nameOf, l, Ok(())) && RecordSpec(t1, t2, nameOf, l, r)
    ensures t2 == t1 && (r.Ok? || r == Err(Unavailable))
  {
    assert ValidLocation(l);
  }

  /** A handle recorded at one place is refused at every other, and its record stays as it is. */
  lemma ConflictRefused(t0: Records, t1: Records, nameOf: Naming, l: Location, other: Location, r: Result<(), Code>)
    requires RecordsPlace(t0, nameOf, other) && other.handle == l.handle && other != l
    requires RecordSpec(t0, t1, nameOf, l, r)
    ensures r.Err? && t1 == t0
  {
  }

  /** Under a colliding naming the second handle is refused, and the first one's record is not overwritten. */
  lemma CollisionRefused(t0: Records, t1: Records, nameOf: Naming, l: Location, other: Location, r: Result<(), Code>)
    requires RecordsPlace(t0, nameOf, other) && other.handle != l.handle && nameOf(other.handle) == nameOf(l.handle)
    requires RecordSpec(t0, t1, nameOf, l, r)
    ensures r.Err? && t1 == t0
  {
  }
}
