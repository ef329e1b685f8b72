/**
 Each of the four hypotheses on snapshot calls is needed: for each there is a run that keeps the three others at
 every step and yet ends with a snapshot LV that has no record.
 */
module SnapshotHypotheses {
  import opened Wrappers
  import opened SnapshotRecords
  import opened SnapshotSystem

  datatype Hypothesis = DisjointCalls | NoHelperLeft | TruePlaces | OwnNames

  ghost predicate Holds(h: Hypothesis, s: State, nameOf: Naming, l: Label) {
    match h
    case DisjointCalls => NoOverlap(s, l)
    case NoHelperLeft => NoneLeftBehind(s, l)
    case TruePlaces => Truthful(s, l)
    case OwnNames => OwnName(s, nameOf, l)
  }

  /** A step that keeps every hypothesis except perhaps one. */
  ghost predicate FairBut(h: Hypothesis, s: State, nameOf: Naming, l: Label) {
    forall other: Hypothesis | other != h :: Holds(other, s, nameOf, l)
  }

  ghost predicate RunBut(h: Hypothesis, s: State, nameOf: Naming, labels: seq<Label>) {
    labels == [] ||
    (&& RunBut(h, s, nameOf, labels[..|labels| - 1])
     && Run(s, nameOf, labels[..|labels| - 1]).Some?
     && FairBut(h, Run(s, nameOf, labels[..|labels| - 1]).value, nameOf, labels[|labels| - 1])
     && Run(s, nameOf, labels).Some?)
  }

  lemma FairMeans(g: Hypothesis, h: Hypothesis, s: State, nameOf: Naming, l: Label)
    requires g != h
    ensures Fair(s, nameOf, l) <==> FairBut(g, s, nameOf, l) && FairBut(h, s, nameOf, l)
  {
    if FairBut(g, s, nameOf, l) && FairBut(h, s, nameOf, l) {
      assert Holds(DisjointCalls, s, nameOf, l) && Holds(NoHelperLeft, s, nameOf, l)
             && Holds(TruePlaces, s, nameOf, l) && Holds(OwnNames, s, nameOf, l);
    }
  }

  /** Together they are fairness: what keeps all but one and all but another keeps all. */
  lemma {:induction false} FairRunKeepsAll(g: Hypothesis, h: Hypothesis, s: State, nameOf: Naming, labels: seq<Label>)
    requires g != h
    ensures FairRun(s, nameOf, labels) <==> RunBut(g, s, nameOf, labels) && RunBut(h, s, nameOf, labels)
  {
    if labels != [] {
      var before, l := labels[..|labels| - 1], labels[|labels| - 1];
      FairRunKeepsAll(g, h, s, nameOf, before);
      if Run(s, nameOf, before).Some? {
        FairMeans(g, h, Run(s, nameOf, before).value, nameOf, l);
      }
    }
  }

  /** The run loses the record of p: there is an LV, and nothing says where. */
  ghost predicate Loses(h: Hypothesis, s: State, nameOf: Naming, labels: seq<Label>, p: Location) {
    && Initial(s, nameOf)
    && RunBut(h, s, nameOf, labels)
    && Run(s, nameOf, labels).Some?
    && p in Run(s, nameOf, labels).value.lvs
    && Recorded(Run(s, nameOf, labels).value.records, nameOf, p.handle) == None
  }

  lemma Extend(h: Hypothesis, s: State, nameOf: Naming, labels: seq<Label>, now: State, l: Label, t: State)
    returns (longer: seq<Label>)
    requires RunBut(h, s, nameOf, labels) && Run(s, nameOf, labels) == Some(now)
    requires FairBut(h, now, nameOf, l) && Step(now, nameOf, l) == Some(t)
    ensures RunBut(h, s, nameOf, longer) && Run(s, nameOf, longer) == Some(t) && longer == labels + [l]
  {
    RunExtends(s, nameOf, labels, l);
    longer := labels + [l];
    assert longer[..|longer| - 1] == labels;
  }

  /** The rest of a delete, from its resolved target on: the LV goes, then the record of that name. */
  lemma EraseAndForget(h: Hypothesis, s: State, nameOf: Naming, labels: seq<Label>, now: State, target: Location)
    returns (longer: seq<Label>, after: State)
    requires RunBut(h, s, nameOf, labels) && Run(s, nameOf, labels) == Some(now)
    requires 0 in now.calls && now.calls[0] == Erasing(target)
    requires FairBut(h, now.(lvs := now.lvs - {target}, calls := now.calls[0 := Erased(target)]), nameOf,
                     Forget(0, Answered))
    ensures RunBut(h, s, nameOf, longer) && Run(s, nameOf, longer) == Some(after)
    ensures after == State(now.records - {nameOf(target.handle)}, now.lvs - {target}, now.helpers, now.calls - {0})
    ensures longer == labels + [Erase(0), Forget(0, Answered)]
  {
    var erased := now.(lvs := now.lvs - {target}, calls := now.calls[0 := Erased(target)]);
    longer := Extend(h, s, nameOf, labels, now, Erase(0), erased);
    after := State(now.records - {nameOf(target.handle)}, now.lvs - {target}, now.helpers, now.calls - {0});
    assert erased.calls - {0} == now.calls - {0};
    longer := Extend(h, s, nameOf, longer, erased, Forget(0, Answered), after);
  }

  /** A delete begins, and is told or reads the place. */
  lemma BeginAndResolve(h: Hypothesis, s: State, nameOf: Naming, labels: seq<Label>, now: State, told: Option<Location>,
                        target: Location)
    returns (longer: seq<Label>)
    requires RunBut(h, s, nameOf, labels) && Run(s, nameOf, labels) == Some(now) && now.calls == map[]
    requires told == Some(target) || (told == None && RecordsPlace(now.records, nameOf, target))
    requires FairBut(h, now, nameOf, BeginDelete(0, target.handle))
    requires FairBut(h, now.(calls := map[0 := Resolving(target.handle)]), nameOf, Resolve(0, told))
    ensures RunBut(h, s, nameOf, longer)
    ensures Run(s, nameOf, longer) == Some(now.(calls := map[0 := Erasing(target)]))
    ensures longer == labels + [BeginDelete(0, target.handle), Resolve(0, told)]
  {
    var resolving := now.(calls := map[0 := Resolving(target.handle)]);
    longer := Extend(h, s, nameOf, labels, now, BeginDelete(0, target.handle), resolving);
    assert map[0 := Resolving(target.handle)][0 := Erasing(target)] == map[0 := Erasing(target)];
    longer := Extend(h, s, nameOf, longer, resolving, Resolve(0, told), now.(calls := map[0 := Erasing(target)]));
  }

  /** With two handles under one name, deleting the second one's snapshot forgets the first one's record. */
  lemma CollidingForgetLosesRecord(nameOf: Naming, p: Location, other: Location) returns (s: State, labels: seq<Label>)
    requires ValidLocation(p) && other.handle != p.handle && nameOf(other.handle) == nameOf(p.handle)
    ensures Loses(OwnNames, s, nameOf, labels, p)
    ensures forall i | 0 <= i < |labels| :: labels[i].BeginDelete? ==> labels[i].handle == other.handle
  {
    s := State(map[nameOf(p.handle) := Encode(p)], {p}, {}, map[]);
    EncodeDecode(p, p.handle);
    labels := BeginAndResolve(OwnNames, s, nameOf, [], s, Some(other), other);
    var after;
    labels, after := EraseAndForget(OwnNames, s, nameOf, labels, s.(calls := map[0 := Erasing(other)]), other);
    assert s.lvs - {other} == s.lvs;
  }

  /** A PV or annotation that names a wrong place makes the delete miss the LV and forget the record. */
  lemma FalsePlaceLosesRecord(nameOf: Naming, p: Location, wrong: Location) returns (s: State, labels: seq<Label>)
    requires ValidLocation(p) && wrong.handle == p.handle && wrong != p
    ensures Loses(TruePlaces, s, nameOf, labels, p)
  {
    s := State(map[nameOf(p.handle) := Encode(p)], {p}, {}, map[]);
    EncodeDecode(p, p.handle);
    labels := BeginAndResolve(TruePlaces, s, nameOf, [], s, Some(wrong), wrong);
    var after;
    labels, after := EraseAndForget(TruePlaces, s, nameOf, labels, s.(calls := map[0 := Erasing(wrong)]), wrong);
    assert s.lvs - {wrong} == s.lvs;
  }

  lemma OnlyRecord(nameOf: Naming, p: Location, records: Records)
    requires ValidLocation(p) && records == map[nameOf(p.handle) := Encode(p)]
    ensures RecordsPlace(records, nameOf, p)
    ensures records - {nameOf(p.handle)} == map[]
  {
    EncodeDecode(p, p.handle);
  }

  /** One call at a time: a create gives up and leaves its helper, the delete succeeds, the helper takes its snapshot. */
  lemma LeftHelperLosesRecord(nameOf: Naming, p: Location) returns (s: State, labels: seq<Label>)
    requires ValidLocation(p)
    ensures Loses(NoHelperLeft, s, nameOf, labels, p)
  {
    s := State(map[], {}, {}, map[]);
    var left := State(map[nameOf(p.handle) := Encode(p)], {}, {p}, map[]);
    labels := CreateLeavesHelper(nameOf, p, s);
    labels := DeleteThenTakes(nameOf, p, s, labels, left);
  }

  lemma DeleteThenTakes(nameOf: Naming, p: Location, s: State, labels: seq<Label>, left: State)
    returns (longer: seq<Label>)
    requires ValidLocation(p) && left == State(map[nameOf(p.handle) := Encode(p)], {}, {p}, map[])
    requires RunBut(NoHelperLeft, s, nameOf, labels) && Run(s, nameOf, labels) == Some(left)
    ensures RunBut(NoHelperLeft, s, nameOf, longer)
    ensures Run(s, nameOf, longer) == Some(State(map[], {p}, {p}, map[]))
  {
    OnlyRecord(nameOf, p, left.records);
    longer := BeginAndResolve(NoHelperLeft, s, nameOf, labels, left, None, p);
    var erasing := left.(calls := map[0 := Erasing(p)]);
    ForgetsOwnName(nameOf, p, erasing.(lvs := erasing.lvs - {p}, calls := erasing.calls[0 := Erased(p)]));
    var after;
    longer, after := EraseAndForget(NoHelperLeft, s, nameOf, longer, erasing, p);
    assert after == State(map[], {}, {p}, map[]);
    longer := TakeLate(nameOf, p, s, longer, after);
  }

  lemma TakeLate(nameOf: Naming, p: Location, s: State, labels: seq<Label>, now: State) returns (longer: seq<Label>)
    requires now == State(map[], {}, {p}, map[])
    requires RunBut(NoHelperLeft, s, nameOf, labels) && Run(s, nameOf, labels) == Some(now)
    ensures RunBut(NoHelperLeft, s, nameOf, longer)
    ensures Run(s, nameOf, longer) == Some(State(map[], {p}, {p}, map[]))
  {
    assert now.lvs + {p} == {p};
    longer := Extend(NoHelperLeft, s, nameOf, labels, now, HelperTakes(p), now.(lvs := {p}));
  }

  /** Only the delete's own handle is left, so its record's name is its own. */
  lemma ForgetsOwnName(nameOf: Naming, p: Location, now: State)
    requires 0 in now.calls && now.calls[0] == Erased(p)
    requires forall q: Location | Relies(now, q) :: q.handle == p.handle
    ensures FairBut(NoHelperLeft, now, nameOf, Forget(0, Answered))
  {
  }

  lemma CreateLeavesHelper(nameOf: Naming, p: Location, s: State) returns (labels: seq<Label>)
    requires ValidLocation(p) && s == State(map[], {}, {}, map[])
    ensures RunBut(NoHelperLeft, s, nameOf, labels)
    ensures Run(s, nameOf, labels) == Some(State(map[nameOf(p.handle) := Encode(p)], {}, {p}, map[]))
  {
    var h := NoHelperLeft;
    var ready := State(map[nameOf(p.handle) := Encode(p)], {}, {}, map[0 := Ready(p)]);
    labels := CreateRecords(nameOf, p, s, ready);
    var started := ready.(helpers := {p}, calls := map[0 := Started(p)]);
    assert ready.calls[0 := Started(p)] == started.calls && ready.helpers + {p} == {p};
    labels := Extend(h, s, nameOf, labels, ready, StartHelper(0), started);
    assert started.calls - {0} == map[];
    labels := Extend(h, s, nameOf, labels, started, Return(0), started.(calls := map[]));
  }

  lemma CreateRecords(nameOf: Naming, p: Location, s: State, ready: State) returns (labels: seq<Label>)
    requires ValidLocation(p) && s == State(map[], {}, {}, map[])
    requires ready == State(map[nameOf(p.handle) := Encode(p)], {}, {}, map[0 := Ready(p)])
    ensures RunBut(NoHelperLeft, s, nameOf, labels) && Run(s, nameOf, labels) == Some(ready)
  {
    var located := s.(calls := map[0 := Located(p)]);
    labels := Extend(NoHelperLeft, s, nameOf, [], s, BeginCreate(0, p), located);
    assert located.calls[0 := Ready(p)] == ready.calls;
    assert StepWriteRecord(located, 0, nameOf, Answered) == Some(ready);
    labels := Extend(NoHelperLeft, s, nameOf, labels, located, WriteRecord(0, Answered), ready);
  }

  /** A create that finds the record while a delete of its handle is about to forget it. */
  lemma OverlappingCreateLosesRecord(nameOf: Naming, p: Location) returns (s: State, labels: seq<Label>)
    requires ValidLocation(p)
    ensures Loses(DisjointCalls, s, nameOf, labels, p)
  {
    s := State(map[nameOf(p.handle) := Encode(p)], {}, {}, map[]);
    OnlyRecord(nameOf, p, s.records);
    labels := BeginAndResolve(DisjointCalls, s, nameOf, [], s, None, p);
    var ready := s.(calls := map[0 := Erasing(p), 1 := Ready(p)]);
    labels := CreateFindsRecord(nameOf, p, s, labels, s.(calls := map[0 := Erasing(p)]), ready);
    var after;
    labels, after := EraseAndForget(DisjointCalls, s, nameOf, labels, ready, p);
    assert ready.calls - {0} == map[1 := Ready(p)];
    assert after == State(map[], {}, {}, map[1 := Ready(p)]);
    labels := StartAndTake(nameOf, p, s, labels, after);
  }

  lemma StartAndTake(nameOf: Naming, p: Location, s: State, labels: seq<Label>, now: State) returns (longer: seq<Label>)
    requires RunBut(DisjointCalls, s, nameOf, labels) && Run(s, nameOf, labels) == Some(now)
    requires now == State(map[], {}, {}, map[1 := Ready(p)])
    ensures RunBut(DisjointCalls, s, nameOf, longer)
    ensures Run(s, nameOf, longer) == Some(State(map[], {p}, {p}, map[1 := Started(p)]))
  {
    var started := State(map[], {}, {p}, map[1 := Started(p)]);
    assert now.calls[1 := Started(p)] == started.calls && now.helpers + {p} == {p};
    longer := Extend(DisjointCalls, s, nameOf, labels, now, StartHelper(1), started);
    assert started.lvs + {p} == {p};
    longer := Extend(DisjointCalls, s, nameOf, longer, started, HelperTakes(p), started.(lvs := {p}));
  }

  lemma CreateFindsRecord(nameOf: Naming, p: Location, s: State, labels: seq<Label>, now: State, ready: State)
    returns (longer: seq<Label>)
    requires ValidLocation(p) && RecordsPlace(now.records, nameOf, p) && now.calls == map[0 := Erasing(p)]
    requires RunBut(DisjointCalls, s, nameOf, labels) && Run(s, nameOf, labels) == Some(now)
    requires ready == now.(calls := map[0 := Erasing(p), 1 := Ready(p)])
    ensures RunBut(DisjointCalls, s, nameOf, longer) && Run(s, nameOf, longer) == Some(ready)
  {
    var h := DisjointCalls;
    var located := now.(calls := map[0 := Erasing(p), 1 := Located(p)]);
    assert now.calls[1 := Located(p)] == located.calls;
    longer := Extend(h, s, nameOf, labels, now, BeginCreate(1, p), located);
    var colliding := now.(calls := map[0 := Erasing(p), 1 := Colliding(p)]);
    assert located.calls[1 := Colliding(p)] == colliding.calls;
    longer := Extend(h, s, nameOf, longer, located, WriteRecord(1, Answered), colliding);
    assert colliding.calls[1 := Ready(p)] == ready.calls;
    longer := Extend(h, s, nameOf, longer, colliding, ReadBack(1, false), ready);
  }
}
