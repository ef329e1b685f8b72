/**
 The admission webhook for StorageClasses: over any run of admitted creates, updates and deletes, the LVM classes
 that have their first topology node and their volume group in common agree on its type. Of further topology nodes
 this holds if classes name no node but their first.
 */
module StorageClassWebhook {
  import opened Wrappers
  import opened DriverNames

  const LVM_DRIVER := "lvm.driver.harvesterhci.io"

  datatype Label = Label(key: string, values: seq<string>)

  /** topologies: allowedTopologies, each a list of match-label expressions. */
  datatype StorageClass = StorageClass(
    name: string, provisioner: string, parameters: map<string, string>, topologies: seq<seq<Label>>)

  /** The classes of the cluster by name. */
  type Classes = map<string, StorageClass>

  predicate IsLvm(sc: StorageClass) {
    sc.provisioner == LVM_DRIVER
  }

  // ---------------------------------------------------------------- the first topology node

  /** Reading the first value of an expression without values stops the program. */
  datatype FirstNode = OutOfBounds | Named(name: string)

  /** The expressions in the order in which they are visited. */
  function Flat(topologies: seq<seq<Label>>): seq<Label> {
    if topologies == [] then [] else topologies[0] + Flat(topologies[1..])
  }

  /** labels[i] is the first topology expression. */
  ghost predicate FirstKeyed(labels: seq<Label>, i: int) {
    && 0 <= i < |labels|
    && labels[i].key == TOPOLOGY_NODE_KEY
    && forall j | 0 <= j < i :: labels[j].key != TOPOLOGY_NODE_KEY
  }

  ghost predicate NoneKeyed(labels: seq<Label>) {
    forall j | 0 <= j < |labels| :: labels[j].key != TOPOLOGY_NODE_KEY
  }

  function FirstOf(labels: seq<Label>): FirstNode {
    if labels == [] then Named("")
    else if labels[0].key == TOPOLOGY_NODE_KEY then
      if labels[0].values == [] then OutOfBounds else Named(labels[0].values[0])
    else FirstOf(labels[1..])
  }

  function LVMTopologyNode(sc: StorageClass): FirstNode {
    FirstOf(Flat(sc.topologies))
  }

  /** The node is the first value of the first topology expression; the empty name without one. */
  lemma {:induction false} FirstOfMeans(labels: seq<Label>)
    ensures FirstOf(labels) == OutOfBounds <==> exists i :: FirstKeyed(labels, i) && labels[i].values == []
    ensures forall i | FirstKeyed(labels, i) && labels[i].values != [] :: FirstOf(labels) == Named(labels[i].values[0])
    ensures NoneKeyed(labels) ==> FirstOf(labels) == Named("")
  {
    if labels != [] {
      if labels[0].key == TOPOLOGY_NODE_KEY {
        assert FirstKeyed(labels, 0);
        assert forall i | FirstKeyed(labels, i) :: i == 0;
      } else {
        FirstOfMeans(labels[1..]);
        forall i ensures FirstKeyed(labels, i) <==> FirstKeyed(labels[1..], i - 1) {
          if FirstKeyed(labels[1..], i - 1) {
            forall j | 0 <= j < i ensures labels[j].key != TOPOLOGY_NODE_KEY {
              assert j > 0 ==> labels[j] == labels[1..][j - 1];
            }
          }
          if FirstKeyed(labels, i) {
            forall j | 0 <= j < i - 1 ensures labels[1..][j].key != TOPOLOGY_NODE_KEY {
              assert labels[1..][j] == labels[j + 1];
            }
          }
        }
        if exists i :: FirstKeyed(labels[1..], i) && labels[1..][i].values == [] {
          var i :| FirstKeyed(labels[1..], i) && labels[1..][i].values == [];
          assert FirstKeyed(labels, i + 1);
        }
      }
    }
  }

  lemma {:induction false} FlatAppend(topologies: seq<seq<Label>>, last: seq<Label>)
    ensures Flat(topologies + [last]) == Flat(topologies) + last
  {
    if topologies == [] {
      assert topologies + [last] == [last];
    } else {
      FlatAppend(topologies[1..], last);
      assert (topologies + [last])[1..] == topologies[1..] + [last];
    }
  }

  lemma {:induction false} FirstOfSkips(before: seq<Label>, after: seq<Label>)
    requires NoneKeyed(before)
    ensures FirstOf(before + after) == FirstOf(after)
  {
    if before == [] {
      assert before + after == after;
    } else {
      assert (before + after)[1..] == before[1..] + after;
      FirstOfSkips(before[1..], after);
    }
  }

  lemma {:induction false} FirstOfKeeps(before: seq<Label>, after: seq<Label>)
    requires !NoneKeyed(before)
    ensures FirstOf(before + after) == FirstOf(before)
  {
    if before[0].key != TOPOLOGY_NODE_KEY {
      assert (before + after)[1..] == before[1..] + after;
      FirstOfKeeps(before[1..], after);
    }
  }

  /** getLVMTopologyNodes: the nested loops with their early return. */
  method GetLVMTopologyNodes(sc: StorageClass) returns (node: FirstNode)
    ensures node == LVMTopologyNode(sc)
  {
    var all := sc.topologies;
    for t := 0 to |all|
      invariant NoneKeyed(Flat(all[..t]))
    {
      var labels := all[t];
      assert all == all[..t] + [all[t]] + all[t + 1..];
      for m := 0 to |labels|
        invariant NoneKeyed(labels[..m])
      {
        if labels[m].key == TOPOLOGY_NODE_KEY {
          FirstInRow(all, t, m);
          return if labels[m].values == [] then OutOfBounds else Named(labels[m].values[0]);
        }
      }
      FlatAppend(all[..t], all[t]);
      assert all[..t + 1] == all[..t] + [all[t]];
    }
    assert all[..|all|] == all;
    FirstOfMeans(Flat(all));
    return Named("");
  }

  lemma {:induction false} FlatSplit(a: seq<seq<Label>>, b: seq<seq<Label>>)
    ensures Flat(a + b) == Flat(a) + Flat(b)
  {
    if a == [] {
      assert a + b == b;
    } else {
      FlatSplit(a[1..], b);
      assert (a + b)[1..] == a[1..] + b;
    }
  }

  lemma FirstInRow(all: seq<seq<Label>>, t: nat, m: nat)
    requires t < |all| && m < |all[t]| && all[t][m].key == TOPOLOGY_NODE_KEY
    requires NoneKeyed(Flat(all[..t])) && NoneKeyed(all[t][..m])
    ensures FirstOf(Flat(all)) == if all[t][m].values == [] then OutOfBounds else Named(all[t][m].values[0])
  {
    var row := all[t];
    FlatSplit(all[..t], all[t..]);
    assert all == all[..t] + all[t..];
    FirstOfSkips(Flat(all[..t]), Flat(all[t..]));
    assert Flat(all[t..]) == row + Flat(all[t + 1..]);
    assert row + Flat(all[t + 1..]) == row[..m] + (row[m..] + Flat(all[t + 1..]));
    FirstOfSkips(row[..m], row[m..] + Flat(all[t + 1..]));
  }

  // ---------------------------------------------------------------- validation

  /** The topology of an LVM class names existing nodes, one to an expression. */
  ghost predicate TopologiesValid(sc: StorageClass, nodes: set<string>) {
    && sc.topologies != []
    && (forall t | t in sc.topologies :: t != [])
    && (forall t, entry | t in sc.topologies && entry in t && entry.key == TOPOLOGY_NODE_KEY ::
          |entry.values| == 1 && entry.values[0] in nodes)
    && exists t, entry :: t in sc.topologies && entry in t && entry.key == TOPOLOGY_NODE_KEY
  }

  method ValidateTopologyNodes(sc: StorageClass, nodes: Option<set<string>>) returns (ok: bool)
    ensures ok <==> !IsLvm(sc) || (nodes.Some? && TopologiesValid(sc, nodes.value))
  {
    if sc.provisioner != LVM_DRIVER {
      return true;
    }
    if |sc.topologies| == 0 {
      return false;
    }
    if nodes == None {
      return false;
    }
    var found := false;
    for t := 0 to |sc.topologies|
      invariant forall i | 0 <= i < t :: sc.topologies[i] != []
      invariant forall i, entry | 0 <= i < t && entry in sc.topologies[i] && entry.key == TOPOLOGY_NODE_KEY ::
                  |entry.values| == 1 && entry.values[0] in nodes.value
      invariant found <==> exists i, entry :: 0 <= i < t && entry in sc.topologies[i] && entry.key == TOPOLOGY_NODE_KEY
    {
      var labels := sc.topologies[t];
      assert labels in sc.topologies;
      if |labels| == 0 {
        return false;
      }
      for m := 0 to |labels|
        invariant forall i | 0 <= i < m && labels[i].key == TOPOLOGY_NODE_KEY ::
                    |labels[i].values| == 1 && labels[i].values[0] in nodes.value
        invariant found <==> || (exists i, entry :: 0 <= i < t && entry in sc.topologies[i] && entry.key == TOPOLOGY_NODE_KEY)
                             || (exists i :: 0 <= i < m && labels[i].key == TOPOLOGY_NODE_KEY)
      {
        if labels[m].key == TOPOLOGY_NODE_KEY {
          assert labels[m] in labels;
          found := true;
          if |labels[m].values| != 1 {
            return false;
          }
          if labels[m].values[0] !in nodes.value {
            return false;
          }
        }
      }
    }
    return found;
  }

  function Type(sc: StorageClass): string {
    Lookup(sc.parameters, "type")
  }

  function VGName(sc: StorageClass): string {
    Lookup(sc.parameters, "vgName")
  }

  /** Two LVM classes whose first topology node and group are the same. */
  predicate SameGroup(a: StorageClass, b: StorageClass) {
    IsLvm(a) && IsLvm(b) && LVMTopologyNode(a) == LVMTopologyNode(b) && VGName(a) == VGName(b)
  }

  predicate FullyNamed(sc: StorageClass) {
    Type(sc) != "" && VGName(sc) != "" && LVMTopologyNode(sc) != Named("")
  }

  ghost predicate NoConflict(classes: Classes, sc: StorageClass) {
    forall n | n in classes && n != sc.name && SameGroup(classes[n], sc) :: Type(classes[n]) == Type(sc)
  }

  /** An LVM class is valid on the nodes of the cluster, fully named, and conflicts with no class that is there. */
  ghost predicate Acceptable(classes: Classes, nodes: set<string>, sc: StorageClass) {
    TopologiesValid(sc, nodes) && FullyNamed(sc) && NoConflict(classes, sc)
  }

  /** Every stored LVM class has a value to read. */
  ghost predicate Readable(classes: Classes) {
    forall n | n in classes && IsLvm(classes[n]) :: LVMTopologyNode(classes[n]) != OutOfBounds
  }

  /** What a parameter of a class says; a missing one is empty. */
  ghost function Parameter(sc: StorageClass, key: string): string {
    if key in sc.parameters then sc.parameters[key] else ""
  }

  /** A listed class that stands in the way: an LVM class of another name and type with the same first node and group. */
  ghost predicate InTheWay(other: StorageClass, sc: StorageClass) {
    && other.provisioner == LVM_DRIVER
    && other.name != sc.name
    && LVMTopologyNode(other) == LVMTopologyNode(sc)
    && Parameter(other, "vgName") == Parameter(sc, "vgName")
    && Parameter(other, "type") != Parameter(sc, "type")
  }

  ghost predicate NamesAll(sc: StorageClass) {
    && Parameter(sc, "type") != "" && Parameter(sc, "vgName") != "" && LVMTopologyNode(sc) != Named("")
  }

  lemma ConflictMeans(classes: Classes, sc: StorageClass)
    requires sc.provisioner == LVM_DRIVER && forall n | n in classes :: classes[n].name == n
    ensures NoConflict(classes, sc) <==> forall n | n in classes :: !InTheWay(classes[n], sc)
    ensures FullyNamed(sc) <==> NamesAll(sc)
  {
    forall n | n in classes && n != sc.name
      ensures InTheWay(classes[n], sc) <==> SameGroup(classes[n], sc) && Type(classes[n]) != Type(sc) { }
  }

  datatype Verdict = Admitted | Refused | Crashed

  /** listed: the classes as listed, None when listing fails. */
  method ValidateUniqueVGType(sc: StorageClass, listed: Option<Classes>) returns (v: Verdict)
    requires listed.Some? ==> forall n | n in listed.value :: listed.value[n].name == n
    ensures !IsLvm(sc) ==> v == Admitted
    ensures v == Admitted && IsLvm(sc) ==> LVMTopologyNode(sc) != OutOfBounds && listed.Some?
    ensures v == Admitted && IsLvm(sc) ==> FullyNamed(sc) && NoConflict(listed.value, sc)
    ensures v == Crashed ==>
              && IsLvm(sc)
              && (LVMTopologyNode(sc) == OutOfBounds || (listed.Some? && !Readable(listed.value)))
    ensures v == Refused ==> IsLvm(sc) && (!FullyNamed(sc) || listed == None || !NoConflict(listed.value, sc))
    // exactly, written out: over readable classes a readable LVM class is refused for what it lacks or what is in its way
    ensures sc.provisioner == LVM_DRIVER && LVMTopologyNode(sc) != OutOfBounds && listed.Some? && Readable(listed.value) ==>
              v == if NamesAll(sc) && forall n | n in listed.value :: !InTheWay(listed.value[n], sc)
                   then Admitted else Refused
  {
    if listed.Some? && sc.provisioner == LVM_DRIVER { ConflictMeans(listed.value, sc); }
    if sc.provisioner != LVM_DRIVER {
      return Admitted;
    }
    var node := GetLVMTopologyNodes(sc);
    if node == OutOfBounds {
      return Crashed;
    }
    if Type(sc) == "" || VGName(sc) == "" || node == Named("") {
      return Refused;
    }
    if listed == None {
      return Refused;
    }
    var rest := listed.value.Keys;
    while rest != {}
      invariant rest <= listed.value.Keys
      invariant forall n | n in listed.value && n !in rest && n != sc.name && SameGroup(listed.value[n], sc) ::
                  Type(listed.value[n]) == Type(sc)
    {
      var n :| n in rest;
      var other := listed.value[n];
      rest := rest - {n};
      if other.provisioner != LVM_DRIVER || other.name == sc.name {
        continue;
      }
      var target := GetLVMTopologyNodes(other);
      if target == OutOfBounds {
        return Crashed;
      }
      if target != node || VGName(other) != VGName(sc) {
        continue;
      }
      if Type(other) != Type(sc) {
        return Refused;
      }
    }
    return Admitted;
  }

  method Create(sc: StorageClass, nodes: Option<set<string>>, listed: Option<Classes>) returns (v: Verdict)
    requires listed.Some? ==> forall n | n in listed.value :: listed.value[n].name == n
    ensures v == Admitted && listed.Some? ==> CreateAdmitted(listed.value, sc)
    // over readable classes a create never crashes, and is admitted exactly if it is acceptable
    ensures listed.Some? && Readable(listed.value) ==>
              && v != Crashed
              && (v == Admitted <==> !IsLvm(sc) || (nodes.Some? && Acceptable(listed.value, nodes.value, sc)))
    ensures listed == None ==> (v == Admitted <==> !IsLvm(sc))
    // written out: its topology is valid, it has a type, a group and a node, and no listed class is in its way
    ensures sc.provisioner == LVM_DRIVER && listed.Some? && Readable(listed.value) ==>
              (v == Admitted <==> && nodes.Some? && TopologiesValid(sc, nodes.value) && NamesAll(sc)
                                  && forall n | n in listed.value :: !InTheWay(listed.value[n], sc))
    // so a valid class of a group of its own is admitted, whatever other groups hold on its node
    ensures sc.provisioner == LVM_DRIVER && listed.Some? && Readable(listed.value)
            && nodes.Some? && TopologiesValid(sc, nodes.value) && NamesAll(sc)
            && (forall n | n in listed.value && listed.value[n].provisioner == LVM_DRIVER ::
                  Parameter(listed.value[n], "vgName") != Parameter(sc, "vgName")) ==>
              v == Admitted
  {
    if listed.Some? && sc.provisioner == LVM_DRIVER { ConflictMeans(listed.value, sc); }
    var ok := ValidateTopologyNodes(sc, nodes);
    if !ok {
      return Refused;
    }
    if IsLvm(sc) {
      ValidIsReadable(sc, nodes.value);
    }
    v := ValidateUniqueVGType(sc, listed);
  }

  method Update(before: StorageClass, after: StorageClass) returns (v: Verdict)
    ensures v == Admitted <==> LVMTopologyNode(before) == LVMTopologyNode(after) != OutOfBounds
    // the update crashes exactly when a first topology expression, of any class, has no value
    ensures v == Crashed <==> LVMTopologyNode(before) == OutOfBounds || LVMTopologyNode(after) == OutOfBounds
  {
    var was := GetLVMTopologyNodes(before);
    if was == OutOfBounds {
      return Crashed;
    }
    var now := GetLVMTopologyNodes(after);
    if now == OutOfBounds {
      return Crashed;
    }
    return if was != now then Refused else Admitted;
  }

  /** A class that passed the topology check is never read out of bounds. */
  lemma ValidIsReadable(sc: StorageClass, nodes: set<string>)
    requires TopologiesValid(sc, nodes)
    ensures LVMTopologyNode(sc) != OutOfBounds
  {
    FirstOfMeans(Flat(sc.topologies));
    forall entry | entry in Flat(sc.topologies) && entry.key == TOPOLOGY_NODE_KEY ensures entry.values != [] {
      FlatMembers(sc.topologies, entry);
    }
  }

  lemma {:induction false} FlatMembers(topologies: seq<seq<Label>>, entry: Label)
    ensures entry in Flat(topologies) <==> exists t :: t in topologies && entry in t
  {
    if topologies != [] {
      FlatMembers(topologies[1..], entry);
      assert topologies == [topologies[0]] + topologies[1..];
    }
  }

  // ---------------------------------------------------------------- over runs of admitted requests

  /** What admitting a create establishes about the class and the classes listed for it. */
  ghost predicate CreateAdmitted(classes: Classes, sc: StorageClass) {
    IsLvm(sc) ==>
      LVMTopologyNode(sc) != OutOfBounds && FullyNamed(sc) && NoConflict(classes, sc)
  }

  /** Provisioner and parameters of a class cannot be changed; the webhook keeps its first node. */
  ghost predicate UpdateAdmitted(before: StorageClass, after: StorageClass) {
    && after.name == before.name && after.provisioner == before.provisioner && after.parameters == before.parameters
    && LVMTopologyNode(before) == LVMTopologyNode(after) != OutOfBounds
  }

  datatype Request = CreateClass(sc: StorageClass) | UpdateClass(sc: StorageClass) | DeleteClass(name: string)

  /** Creates are serialised: each is checked against the classes as they are. */
  ghost predicate Admissible(classes: Classes, r: Request) {
    match r
    case CreateClass(sc) => sc.name !in classes && CreateAdmitted(classes, sc)
    case UpdateClass(sc) => sc.name in classes && UpdateAdmitted(classes[sc.name], sc)
    case DeleteClass(_) => true
  }

  function Apply(classes: Classes, r: Request): Classes {
    match r
    case CreateClass(sc) => classes[sc.name := sc]
    case UpdateClass(sc) => classes[sc.name := sc]
    case DeleteClass(name) => classes - {name}
  }

  function AfterAll(classes: Classes, requests: seq<Request>): Classes {
    if requests == [] then classes
    else Apply(AfterAll(classes, requests[..|requests| - 1]), requests[|requests| - 1])
  }

  ghost predicate AllAdmissible(classes: Classes, requests: seq<Request>) {
    requests == [] ||
    (&& AllAdmissible(classes, requests[..|requests| - 1])
     && Admissible(AfterAll(classes, requests[..|requests| - 1]), requests[|requests| - 1]))
  }

  ghost predicate Agree(classes: Classes) {
    forall m, n | m in classes && n in classes && SameGroup(classes[m], classes[n]) ::
      Type(classes[m]) == Type(classes[n])
  }

  /** Agreement, written out. */
  lemma AgreeMeans(classes: Classes)
    ensures Agree(classes) <==>
              forall m, n | && m in classes && n in classes
                            && classes[m].provisioner == LVM_DRIVER && classes[n].provisioner == LVM_DRIVER
                            && LVMTopologyNode(classes[m]) == LVMTopologyNode(classes[n])
                            && Parameter(classes[m], "vgName") == Parameter(classes[n], "vgName") ::
                Parameter(classes[m], "type") == Parameter(classes[n], "type")
  {
    forall m, n | m in classes && n in classes
      ensures SameGroup(classes[m], classes[n]) <==>
                && classes[m].provisioner == LVM_DRIVER && classes[n].provisioner == LVM_DRIVER
                && LVMTopologyNode(classes[m]) == LVMTopologyNode(classes[n])
                && Parameter(classes[m], "vgName") == Parameter(classes[n], "vgName") { }
  }

  ghost predicate Consistent(classes: Classes) {
    (forall n | n in classes :: classes[n].name == n) && Readable(classes) && Agree(classes)
  }

  lemma AgreeStep(classes: Classes, r: Request, m: string, n: string)
    requires Consistent(classes) && Admissible(classes, r)
    requires m in Apply(classes, r) && n in Apply(classes, r) && SameGroup(Apply(classes, r)[m], Apply(classes, r)[n])
    ensures Type(Apply(classes, r)[m]) == Type(Apply(classes, r)[n])
  {
    var after := Apply(classes, r);
    if !r.CreateClass? {
      assert SameGroup(classes[m], classes[n]);
    } else if m != r.sc.name && n != r.sc.name {
      assert SameGroup(classes[m], classes[n]);
    } else if m != n {
      assert SameGroup(after[n], after[m]);
    }
  }

  lemma ConsistentStep(classes: Classes, r: Request)
    requires Consistent(classes) && Admissible(classes, r)
    ensures Consistent(Apply(classes, r))
  {
    forall m, n | m in Apply(classes, r) && n in Apply(classes, r) && SameGroup(Apply(classes, r)[m], Apply(classes, r)[n])
      ensures Type(Apply(classes, r)[m]) == Type(Apply(classes, r)[n])
    {
      AgreeStep(classes, r, m, n);
    }
  }

  /** Over any run of admitted requests, classes of one first node and group have one type, and creates never crash. */
  lemma {:induction false} OneTypePerGroup(classes: Classes, requests: seq<Request>)
    requires Consistent(classes) && AllAdmissible(classes, requests)
    ensures Consistent(AfterAll(classes, requests))
  {
    if requests != [] {
      OneTypePerGroup(classes, requests[..|requests| - 1]);
      ConsistentStep(AfterAll(classes, requests[..|requests| - 1]), requests[|requests| - 1]);
    }
  }

  /** Two creates checked against the same list are both admitted and then disagree: they must be serialised. */
  lemma ConcurrentCreatesDisagree(a: StorageClass, b: StorageClass, nodes: set<string>)
    requires a.name != b.name && SameGroup(a, b) && Type(a) != Type(b)
    requires TopologiesValid(a, nodes) && TopologiesValid(b, nodes) && FullyNamed(a) && FullyNamed(b)
    ensures Readable(map[]) && Acceptable(map[], nodes, a) && Acceptable(map[], nodes, b)
    ensures CreateAdmitted(map[], a) && CreateAdmitted(map[], b)
    ensures !Agree(Apply(Apply(map[], CreateClass(a)), CreateClass(b)))
  {
    ValidIsReadable(a, nodes);
    ValidIsReadable(b, nodes);
    var classes := Apply(Apply(map[], CreateClass(a)), CreateClass(b));
    assert classes[a.name] == a && classes[b.name] == b;
  }

  /** When they are serialised the second one is refused: it is not acceptable beside the first. */
  lemma SerialisedCreateRefused(classes: Classes, a: StorageClass, b: StorageClass, nodes: set<string>)
    requires a.name != b.name && SameGroup(a, b) && Type(a) != Type(b)
    ensures !Acceptable(Apply(classes, CreateClass(a)), nodes, b)
  {
    assert Apply(classes, CreateClass(a))[a.name] == a;
  }

  // ---------------------------------------------------------------- further topology nodes

  ghost predicate NamesNode(sc: StorageClass, node: string) {
    exists t, entry :: t in sc.topologies && entry in t && entry.key == TOPOLOGY_NODE_KEY && node in entry.values
  }

  /** The class names no node but its first. */
  ghost predicate OneNode(sc: StorageClass) {
    forall node | NamesNode(sc, node) :: LVMTopologyNode(sc) == Named(node)
  }

  /** Two LVM classes of one group that can both be provisioned on some node. */
  ghost predicate ShareNode(a: StorageClass, b: StorageClass) {
    IsLvm(a) && IsLvm(b) && VGName(a) == VGName(b) && exists node :: NamesNode(a, node) && NamesNode(b, node)
  }

  ghost predicate AgreeOnNodes(classes: Classes) {
    forall m, n | m in classes && n in classes && ShareNode(classes[m], classes[n]) :: Type(classes[m]) == Type(classes[n])
  }

  ghost predicate AllOneNode(classes: Classes) {
    forall n | n in classes && IsLvm(classes[n]) :: OneNode(classes[n])
  }

  ghost predicate RequestsOneNode(requests: seq<Request>) {
    forall i | 0 <= i < |requests| && !requests[i].DeleteClass? && IsLvm(requests[i].sc) :: OneNode(requests[i].sc)
  }

  lemma {:induction false} StayOneNode(classes: Classes, requests: seq<Request>)
    requires AllOneNode(classes) && RequestsOneNode(requests)
    ensures AllOneNode(AfterAll(classes, requests))
  {
    if requests != [] {
      var before := requests[..|requests| - 1];
      assert forall i | 0 <= i < |before| :: before[i] == requests[i];
      StayOneNode(classes, before);
    }
  }

  /** Over any run of admitted requests among classes of one node each, classes that share a node and group agree. */
  lemma OneTypePerNode(classes: Classes, requests: seq<Request>)
    requires Consistent(classes) && AllAdmissible(classes, requests)
    requires AllOneNode(classes) && RequestsOneNode(requests)
    ensures AgreeOnNodes(AfterAll(classes, requests))
  {
    OneTypePerGroup(classes, requests);
    StayOneNode(classes, requests);
    var after := AfterAll(classes, requests);
    forall m, n | m in after && n in after && ShareNode(after[m], after[n]) ensures Type(after[m]) == Type(after[n]) {
      assert SameGroup(after[m], after[n]);
    }
  }

  /** A class of one node and of another type than a, which the webhook does not compare with a unless it is a's first. */
  function Rival(a: StorageClass, node: string): StorageClass {
    StorageClass(a.name + "2", LVM_DRIVER,
                 map["vgName" := VGName(a), "type" := if Type(a) == STRIPED then DM_THIN else STRIPED],
                 [[Label(TOPOLOGY_NODE_KEY, [node])]])
  }

  lemma RivalAcceptable(a: StorageClass, nodes: set<string>, node: string)
    requires IsLvm(a) && FullyNamed(a) && NamesNode(a, node) && node in nodes && node != ""
    requires LVMTopologyNode(a) != Named(node)
    ensures var b := Rival(a, node);
            && b.name != a.name && OneNode(b) && ShareNode(a, b) && Type(b) != Type(a)
            && Acceptable(map[a.name := a], nodes, b)
  {
    var b := Rival(a, node);
    var entry := Label(TOPOLOGY_NODE_KEY, [node]);
    assert "vgName"[0] == 'v' && "type"[0] == 't' && STRIPED[0] == 's' && DM_THIN[0] == 'd';
    assert VGName(b) == VGName(a) && Type(b) != Type(a);
    assert b.topologies == [[entry]] && entry in b.topologies[0];
    assert Flat(b.topologies) == [entry] by { assert b.topologies[1..] == []; }
    assert LVMTopologyNode(b) == Named(node);
    assert b.topologies[0] in b.topologies && NamesNode(b, node);
    assert b.name[|a.name|] == '2';
  }

  /** A valid class is safe from every class the webhook accepts beside it if and only if it names no node but its first. */
  lemma OneNodeExact(a: StorageClass, nodes: set<string>)
    requires IsLvm(a) && TopologiesValid(a, nodes) && FullyNamed(a) && "" !in nodes
    ensures OneNode(a) <==> forall b: StorageClass | b.name != a.name && OneNode(b) && ShareNode(a, b)
                                                   && Acceptable(map[a.name := a], nodes, b) :: Type(b) == Type(a)
  {
    if OneNode(a) {
      forall b: StorageClass | b.name != a.name && OneNode(b) && ShareNode(a, b) && Acceptable(map[a.name := a], nodes, b)
        ensures Type(b) == Type(a)
      {
        assert SameGroup(a, b) && map[a.name := a][a.name] == a;
      }
    } else {
      var node :| NamesNode(a, node) && LVMTopologyNode(a) != Named(node);
      RivalAcceptable(a, nodes, node);
    }
  }

  /** Two admitted classes of different types in one group, the second of which may provision on the first one's node. */
  lemma SecondNodeEscapes(n1: string, n2: string) returns (a: StorageClass, requests: seq<Request>)
    requires n1 != n2 && n1 != "" && n2 != ""
    ensures AllAdmissible(map[], requests) && !AgreeOnNodes(AfterAll(map[], requests))
    ensures Acceptable(map[], {n1, n2}, a) && |requests| == 2 && requests[0] == CreateClass(a)
    ensures requests[1].CreateClass? && Acceptable(map[a.name := a], {n1, n2}, requests[1].sc)
  {
    var first, second := [Label(TOPOLOGY_NODE_KEY, [n2])], [Label(TOPOLOGY_NODE_KEY, [n1])];
    a := StorageClass("a", LVM_DRIVER, map["vgName" := "vg", "type" := DM_THIN], [first, second]);
    assert "vgName"[0] == 'v' && "type"[0] == 't';
    assert first in a.topologies && second in a.topologies && first[0] in first && second[0] in second;
    assert a.topologies[1..] == [second] && a.topologies[1..][1..] == [];
    assert Flat([second]) == second + Flat([]);
    assert Flat(a.topologies) == first + Flat([second]) == [first[0], second[0]];
    assert NamesNode(a, n1);
    RivalAcceptable(a, {n1, n2}, n1);
    var b := Rival(a, n1);
    requests := [CreateClass(a), CreateClass(b)];
    EscapeAdmissible(a, b, {n1, n2});
  }

  lemma EscapeAdmissible(a: StorageClass, b: StorageClass, nodes: set<string>)
    requires IsLvm(a) && IsLvm(b) && a.name != b.name && ShareNode(a, b) && Type(a) != Type(b)
    requires Acceptable(map[], nodes, a) && Acceptable(map[a.name := a], nodes, b)
    ensures AllAdmissible(map[], [CreateClass(a), CreateClass(b)])
    ensures !AgreeOnNodes(AfterAll(map[], [CreateClass(a), CreateClass(b)]))
  {
    var requests := [CreateClass(a), CreateClass(b)];
    assert requests[..1] == [CreateClass(a)] && requests[..1][..0] == [];
    ValidIsReadable(a, nodes);
    ValidIsReadable(b, nodes);
    assert Admissible(map[], CreateClass(a)) && AllAdmissible(map[], requests[..1][..0]);
    assert AllAdmissible(map[], requests[..1]);
    assert AfterAll(map[], requests[..1]) == map[a.name := a];
    assert Admissible(map[a.name := a], CreateClass(b));
    var after := AfterAll(map[], requests);
    assert after == map[a.name := a][b.name := b];
    assert after[a.name] == a && after[b.name] == b;
  }
}
