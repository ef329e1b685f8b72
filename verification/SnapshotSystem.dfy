/**
 Snapshot calls as a labelled step system: the controller may die between any two steps, and a helper pod
 that outlives its call may still take its snapshot later. The records must always name the place of every
 snapshot LV the driver made.
 */
module SnapshotSystem {
  import opened Wrappers
  import opened SnapshotRecords

  type CallId = nat

  datatype PC =
    | Located(loc: Location)       // create: PV metadata read, about to create the record
    | Colliding(loc: Location)     // create: the record's name was taken, about to read it back
    | Ready(loc: Location)     // create: the record is there, about to start the helper
    | Started(loc: Location)       // create: waiting for its helper
    | Resolving(handle: string)    // delete: about to find the location
    | Erasing(target: Location)    // delete: about to run the delete helper there
    | Erased(target: Location)     // delete: the helper succeeded, about to forget the record

  /** lvs: the snapshot LVs the driver made. helpers: create helpers that may still take theirs. */
  datatype State = State(records: Records, lvs: set<Location>, helpers: set<Location>, calls: map<CallId, PC>)

  /** A request that is answered, that fails, or whose effect happens although its caller gets an error. */
  datatype Fate = Answered | NotDone | ReplyLost

  datatype Label =
    | BeginCreate(c: CallId, loc: Location)
    | WriteRecord(c: CallId, fate: Fate)
    | ReadBack(c: CallId, fails: bool)
    | StartHelper(c: CallId)
    | BeginDelete(c: CallId, handle: string)
    | Resolve(c: CallId, told: Option<Location>)   // told by a PV or an annotation, or read from the record
    | Erase(c: CallId)
    | Forget(c: CallId, fate: Fate)
    | Return(c: CallId)
    | Crash
    | HelperTakes(loc: Location)
    | HelperEnds(loc: Location)
    | Loses(loc: Location)                         // a late delete helper, or the node, removes an LV

  function Goto(s: State, c: CallId, pc: PC): State {
    s.(calls := s.calls[c := pc])
  }

  function Drop(s: State, c: CallId): State {
    s.(calls := s.calls - {c})
  }

  function StepWriteRecord(s: State, c: CallId, nameOf: Naming, fate: Fate): Option<State> {
    if c !in s.calls || !s.calls[c].Located? then None
    else
      var loc := s.calls[c].loc;
      if !ValidLocation(loc) || fate.NotDone? then Some(Drop(s, c))
      else if nameOf(loc.handle) in s.records then
        Some(if fate.Answered? then Goto(s, c, Colliding(loc)) else Drop(s, c))
      else
        var t := s.(records := s.records[nameOf(loc.handle) := Encode(loc)]);
        Some(if fate.Answered? then Goto(t, c, Ready(loc)) else Drop(t, c))
  }

  function StepReadBack(s: State, c: CallId, nameOf: Naming, fails: bool): Option<State> {
    if c !in s.calls || !s.calls[c].Colliding? then None
    else if !fails && RecordsPlace(s.records, nameOf, s.calls[c].loc) then Some(Goto(s, c, Ready(s.calls[c].loc)))
    else Some(Drop(s, c))
  }

  function StepResolve(s: State, c: CallId, nameOf: Naming, told: Option<Location>): Option<State> {
    if c !in s.calls || !s.calls[c].Resolving? then None
    else
      var handle := s.calls[c].handle;
      if told.Some? then
        if told.value.handle == handle then Some(Goto(s, c, Erasing(told.value))) else None
      else match Recorded(s.records, nameOf, handle)
        case Some(Ok(loc)) => Some(Goto(s, c, Erasing(loc)))
        case _ => None
  }

  function StepForget(s: State, c: CallId, nameOf: Naming, fate: Fate): Option<State> {
    if c !in s.calls || !s.calls[c].Erased? then None
    else
      var records := if fate.NotDone? then s.records else s.records - {nameOf(s.calls[c].target.handle)};
      Some(Drop(s.(records := records), c))
  }

  function Step(s: State, nameOf: Naming, l: Label): Option<State> {
    match l
    case BeginCreate(c, loc) => if c !in s.calls then Some(Goto(s, c, Located(loc))) else None
    case WriteRecord(c, fate) => StepWriteRecord(s, c, nameOf, fate)
    case ReadBack(c, fails) => StepReadBack(s, c, nameOf, fails)
    case StartHelper(c) =>
      if c in s.calls && s.calls[c].Ready? then
        Some(Goto(s.(helpers := s.helpers + {s.calls[c].loc}), c, Started(s.calls[c].loc)))
      else None
    case BeginDelete(c, handle) => if c !in s.calls then Some(Goto(s, c, Resolving(handle))) else None
    case Resolve(c, told) => StepResolve(s, c, nameOf, told)
    case Erase(c) =>
      if c in s.calls && s.calls[c].Erasing? then
        Some(Goto(s.(lvs := s.lvs - {s.calls[c].target}), c, Erased(s.calls[c].target)))
      else None
    case Forget(c, fate) => StepForget(s, c, nameOf, fate)
    case Return(c) => Some(Drop(s, c))
    case Crash => Some(s.(calls := map[]))
    case HelperTakes(loc) => if loc in s.helpers then Some(s.(lvs := s.lvs + {loc})) else None
    case HelperEnds(loc) => Some(s.(helpers := s.helpers - {loc}))
    case Loses(loc) => Some(s.(lvs := s.lvs - {loc}))
  }

  function Run(s: State, nameOf: Naming, labels: seq<Label>): Option<State> {
    if labels == [] then Some(s)
    else
      match Run(s, nameOf, labels[..|labels| - 1])
      case None => None
      case Some(t) => Step(t, nameOf, labels[|labels| - 1])
  }

  lemma RunExtends(s: State, nameOf: Naming, labels: seq<Label>, l: Label)
    requires Run(s, nameOf, labels).Some?
    ensures Run(s, nameOf, labels + [l]) == Step(Run(s, nameOf, labels).value, nameOf, l)
  {
    assert (labels + [l])[..|labels|] == labels;
  }

  // ---------------------------------------------------------------- hypotheses

  predicate Creating(pc: PC, handle: string) {
    (pc.Located? || pc.Colliding? || pc.Ready? || pc.Started?) && pc.loc.handle == handle
  }

  predicate Deleting(pc: PC, handle: string) {
    (pc.Resolving? && pc.handle == handle) || ((pc.Erasing? || pc.Erased?) && pc.target.handle == handle)
  }

  /** The places that must stay recorded: LVs, helpers that may still make one, and calls past their record. */
  ghost predicate Relies(s: State, loc: Location) {
    || loc in s.lvs
    || loc in s.helpers
    || exists c | c in s.calls :: s.calls[c] == Ready(loc) || s.calls[c] == Started(loc)
  }

  /** No create of a handle is in flight together with its delete. */
  ghost predicate NoOverlap(s: State, l: Label) {
    match l
    case BeginCreate(_, loc) => forall d | d in s.calls :: !Deleting(s.calls[d], loc.handle)
    case BeginDelete(_, handle) => forall d | d in s.calls :: !Creating(s.calls[d], handle)
    case _ => true
  }

  /** No delete of a handle begins while a create helper left behind may still take its snapshot. */
  ghost predicate NoneLeftBehind(s: State, l: Label) {
    l.BeginDelete? ==> forall p | p in s.helpers :: p.handle != l.handle
  }

  /** What a PV or an annotation tells about a handle is where its LV is, if it has one. */
  ghost predicate Truthful(s: State, l: Label) {
    l.Resolve? && l.told.Some? ==> forall p | p in s.lvs && p.handle == l.told.value.handle :: p == l.told.value
  }

  /** The name of a forgotten record is no other handle's. */
  ghost predicate OwnName(s: State, nameOf: Naming, l: Label) {
    l.Forget? && l.c in s.calls && s.calls[l.c].Erased? ==>
      forall p: Location | Relies(s, p) && nameOf(p.handle) == nameOf(s.calls[l.c].target.handle) ::
        p.handle == s.calls[l.c].target.handle
  }

  ghost predicate Fair(s: State, nameOf: Naming, l: Label) {
    NoOverlap(s, l) && NoneLeftBehind(s, l) && Truthful(s, l) && OwnName(s, nameOf, l)
  }

  ghost predicate FairRun(s: State, nameOf: Naming, labels: seq<Label>) {
    labels == [] ||
    (&& FairRun(s, nameOf, labels[..|labels| - 1])
     && Run(s, nameOf, labels[..|labels| - 1]).Some?
     && Fair(Run(s, nameOf, labels[..|labels| - 1]).value, nameOf, labels[|labels| - 1])
     && Run(s, nameOf, labels).Some?)
  }

  // ---------------------------------------------------------------- the invariant

  ghost predicate AllRecorded(s: State, nameOf: Naming) {
    forall p: Location | Relies(s, p) :: RecordsPlace(s.records, nameOf, p)
  }

  /** While a delete of a handle is in flight, no create of it is, and after resolving it knows the only place. */
  ghost predicate DeleteKnows(s: State, pc: PC) {
    match pc
    case Resolving(handle) => NoCreates(s, handle)
    case Erasing(target) => NoCreates(s, target.handle) && forall p | p in s.lvs && p.handle == target.handle :: p == target
    case Erased(target) => NoCreates(s, target.handle) && forall p | p in s.lvs :: p.handle != target.handle
    case _ => true
  }

  ghost predicate NoCreates(s: State, handle: string) {
    && (forall d | d in s.calls :: !Creating(s.calls[d], handle))
    && (forall p | p in s.helpers :: p.handle != handle)
  }

  ghost predicate Inv(s: State, nameOf: Naming) {
    AllRecorded(s, nameOf) && forall c | c in s.calls :: DeleteKnows(s, s.calls[c])
  }

  // ---------------------------------------------------------------- preservation

  /** A record that is there stays as it is, except for the one forgotten. */
  lemma RecordsWriteOnce(s: State, nameOf: Naming, l: Label, name: string)
    requires Step(s, nameOf, l).Some? && name in s.records
    ensures var t := Step(s, nameOf, l).value;
            if name in t.records then t.records[name] == s.records[name]
            else l.Forget? && l.c in s.calls && s.calls[l.c].Erased? && name == nameOf(s.calls[l.c].target.handle)
  {
  }

  /** A step that makes a place count was taken by a call that had just seen its record. */
  lemma ReliesBefore(s: State, nameOf: Naming, l: Label, p: Location)
    requires Step(s, nameOf, l).Some? && Relies(Step(s, nameOf, l).value, p)
    ensures Relies(s, p) || RecordsPlace(Step(s, nameOf, l).value.records, nameOf, p)
    ensures l.Forget? ==> Relies(s, p)
  {
    var t := Step(s, nameOf, l).value;
    if p !in t.lvs && p !in t.helpers {
      var c :| c in t.calls && (t.calls[c] == Ready(p) || t.calls[c] == Started(p));
      RecordedBefore(s, nameOf, l, p, c);
    }
  }

  lemma RecordedBefore(s: State, nameOf: Naming, l: Label, p: Location, c: CallId)
    requires Step(s, nameOf, l).Some? && c in Step(s, nameOf, l).value.calls
    requires var pc := Step(s, nameOf, l).value.calls[c]; pc == Ready(p) || pc == Started(p)
    ensures || (c in s.calls && (s.calls[c] == Ready(p) || s.calls[c] == Started(p)))
            || (!l.Forget? && RecordsPlace(Step(s, nameOf, l).value.records, nameOf, p))
  {
    if l.WriteRecord? && l.c == c && c in s.calls && s.calls[c].Located? && ValidLocation(s.calls[c].loc) {
      EncodeDecode(s.calls[c].loc, s.calls[c].loc.handle);
    }
  }

  lemma AllRecordedStep(s: State, nameOf: Naming, l: Label)
    requires Inv(s, nameOf) && Fair(s, nameOf, l) && Step(s, nameOf, l).Some?
    ensures AllRecorded(Step(s, nameOf, l).value, nameOf)
  {
    var t := Step(s, nameOf, l).value;
    forall p: Location | Relies(t, p) ensures RecordsPlace(t.records, nameOf, p) {
      ReliesBefore(s, nameOf, l, p);
      if Relies(s, p) {
        assert RecordsPlace(s.records, nameOf, p);
        RecordsWriteOnce(s, nameOf, l, nameOf(p.handle));
        if nameOf(p.handle) !in t.records {
          ForgottenRelies(s, nameOf, l, p);
        }
      }
    }
  }

  /** Nothing relies on the record of a handle that is being forgotten. */
  lemma ForgottenRelies(s: State, nameOf: Naming, l: Label, p: Location)
    requires Inv(s, nameOf) && Fair(s, nameOf, l) && l.Forget? && l.c in s.calls && s.calls[l.c].Erased?
    requires nameOf(p.handle) == nameOf(s.calls[l.c].target.handle)
    ensures !Relies(s, p)
  {
    assert DeleteKnows(s, s.calls[l.c]);
    var handle := s.calls[l.c].target.handle;
    if Relies(s, p) {
      assert p.handle == handle;
      if p !in s.lvs && p !in s.helpers {
        var c :| c in s.calls && (s.calls[c] == Ready(p) || s.calls[c] == Started(p));
        assert Creating(s.calls[c], handle);
      }
    }
  }

  lemma NoCreatesStep(s: State, nameOf: Naming, l: Label, handle: string)
    requires Step(s, nameOf, l).Some? && NoCreates(s, handle)
    requires l.BeginCreate? ==> l.loc.handle != handle
    ensures NoCreates(Step(s, nameOf, l).value, handle)
  {
    var t := Step(s, nameOf, l).value;
    forall d | d in t.calls ensures !Creating(t.calls[d], handle) {
      assert d in s.calls ==> !Creating(s.calls[d], handle);
    }
    assert l.StartHelper? ==> !Creating(s.calls[l.c], handle);
  }

  lemma DeleteKnowsStep(s: State, nameOf: Naming, l: Label, c: CallId)
    requires Inv(s, nameOf) && Fair(s, nameOf, l) && Step(s, nameOf, l).Some? && c in Step(s, nameOf, l).value.calls
    ensures DeleteKnows(Step(s, nameOf, l).value, Step(s, nameOf, l).value.calls[c])
  {
    var t := Step(s, nameOf, l).value;
    if c in s.calls && (s.calls[c].Resolving? || s.calls[c].Erasing? || s.calls[c].Erased?) {
      var handle := if s.calls[c].Resolving? then s.calls[c].handle else s.calls[c].target.handle;
      assert DeleteKnows(s, s.calls[c]) && Deleting(s.calls[c], handle);
      NoCreatesStep(s, nameOf, l, handle);
      if l.Resolve? && l.c == c && l.told.None? {
        ResolvedFromRecord(s, nameOf, c);
      }
    }
  }

  /** The record leads to the only place the handle has. */
  lemma ResolvedFromRecord(s: State, nameOf: Naming, c: CallId)
    requires AllRecorded(s, nameOf) && StepResolve(s, c, nameOf, None).Some?
    ensures var loc := StepResolve(s, c, nameOf, None).value.calls[c];
            loc.Erasing? && loc.target.handle == s.calls[c].handle
            && forall p | p in s.lvs && p.handle == loc.target.handle :: p == loc.target
  {
    forall p | p in s.lvs && p.handle == s.calls[c].handle
      ensures p == StepResolve(s, c, nameOf, None).value.calls[c].target
    {
      assert Relies(s, p);
      assert RecordsPlace(s.records, nameOf, p);
    }
  }

  lemma InvStep(s: State, nameOf: Naming, l: Label)
    requires Inv(s, nameOf) && Fair(s, nameOf, l) && Step(s, nameOf, l).Some?
    ensures Inv(Step(s, nameOf, l).value, nameOf)
  {
    AllRecordedStep(s, nameOf, l);
    forall c | c in Step(s, nameOf, l).value.calls
      ensures DeleteKnows(Step(s, nameOf, l).value, Step(s, nameOf, l).value.calls[c])
    {
      DeleteKnowsStep(s, nameOf, l, c);
    }
  }

  // ---------------------------------------------------------------- over whole runs

  /** A controller that starts with every LV of an earlier one recorded. */
  ghost predicate Initial(s: State, nameOf: Naming) {
    s.calls == map[] && AllRecorded(s, nameOf)
  }

  lemma {:induction false} InvRun(s: State, nameOf: Naming, labels: seq<Label>)
    requires Initial(s, nameOf) && FairRun(s, nameOf, labels)
    ensures Run(s, nameOf, labels).Some? && Inv(Run(s, nameOf, labels).value, nameOf)
  {
    if labels != [] {
      InvRun(s, nameOf, labels[..|labels| - 1]);
      InvStep(Run(s, nameOf, labels[..|labels| - 1]).value, nameOf, labels[|labels| - 1]);
    }
  }

  /** Every snapshot LV the driver made has a record that names exactly its place. */
  lemma EverySnapshotRecorded(s: State, nameOf: Naming, labels: seq<Label>, p: Location)
    requires Initial(s, nameOf) && FairRun(s, nameOf, labels) && p in Run(s, nameOf, labels).value.lvs
    ensures Recorded(Run(s, nameOf, labels).value.records, nameOf, p.handle) == Some(Ok(p))
  {
    InvRun(s, nameOf, labels);
    assert Relies(Run(s, nameOf, labels).value, p);
  }

  /** No handle ever has LVs at two places. */
  lemma OnePlacePerHandle(s: State, nameOf: Naming, labels: seq<Label>, p: Location, q: Location)
    requires Initial(s, nameOf) && FairRun(s, nameOf, labels)
    requires p in Run(s, nameOf, labels).value.lvs && q in Run(s, nameOf, labels).value.lvs && p.handle == q.handle
    ensures p == q
  {
    EverySnapshotRecorded(s, nameOf, labels, p);
    EverySnapshotRecorded(s, nameOf, labels, q);
  }

  /** When a delete helper has succeeded, no LV of the handle is left anywhere: forgetting the record is safe. */
  lemma DeleteLeavesNothing(s: State, nameOf: Naming, labels: seq<Label>, c: CallId, p: Location)
    requires Initial(s, nameOf) && FairRun(s, nameOf, labels)
    requires var t := Run(s, nameOf, labels).value; c in t.calls && t.calls[c].Erased? && p in t.lvs
    ensures p.handle != Run(s, nameOf, labels).value.calls[c].target.handle
  {
    InvRun(s, nameOf, labels);
    assert DeleteKnows(Run(s, nameOf, labels).value, Run(s, nameOf, labels).value.calls[c]);
  }

  /** A record that is there is never overwritten: over a run without Forget it stays as it is. */
  lemma {:induction false} RecordStays(s: State, nameOf: Naming, labels: seq<Label>, name: string)
    requires Run(s, nameOf, labels).Some? && name in s.records
    requires forall i | 0 <= i < |labels| :: !labels[i].Forget?
    ensures name in Run(s, nameOf, labels).value.records
    ensures Run(s, nameOf, labels).value.records[name] == s.records[name]
  {
    if labels != [] {
      var before := labels[..|labels| - 1];
      assert forall i | 0 <= i < |before| :: before[i] == labels[i];
      RecordStays(s, nameOf, before, name);
      RecordsWriteOnce(Run(s, nameOf, before).value, nameOf, labels[|labels| - 1], name);
    }
  }
}
