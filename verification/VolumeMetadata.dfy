/**
 What a created volume publishes about itself, and how later calls read it back from the persistent volume:
 the node it lives on, its volume group and type, and its requested size.
 */
module VolumeMetadata {
  import opened Wrappers
  import opened Text
  import opened DriverNames

  const VG_KEY := "vgName"
  const TYPE_KEY := "type"
  const BYTES_KEY := "RequiredBytes"

  type Attributes = map<string, string>

  // ---------------------------------------------------------------- choosing a node

  datatype Topology = Topology(segments: map<string, string>)

  datatype Requirement = Requirement(requisite: seq<Topology>, preferred: seq<Topology>)

  function NodeIn(t: Topology): string {
    Lookup(t.segments, TOPOLOGY_NODE_KEY)
  }

  function RequisiteNodes(req: Requirement): set<string> {
    set t | t in req.requisite && NodeIn(t) != "" :: NodeIn(t)
  }

  /** preferred[i] is the first that names a node. */
  ghost predicate FirstNamed(preferred: seq<Topology>, i: int) {
    && 0 <= i < |preferred|
    && NodeIn(preferred[i]) != ""
    && forall j | 0 <= j < i :: NodeIn(preferred[j]) == ""
  }

  ghost predicate NoneNamed(preferred: seq<Topology>) {
    forall j | 0 <= j < |preferred| :: NodeIn(preferred[j]) == ""
  }

  /** The node is the first preferred one, if the requisite nodes allow it; or the only requisite one. */
  ghost predicate Chosen(req: Requirement, node: string) {
    || (exists i :: FirstNamed(req.preferred, i) && NodeIn(req.preferred[i]) == node
                    && (RequisiteNodes(req) == {} || node in RequisiteNodes(req)))
    || (NoneNamed(req.preferred) && RequisiteNodes(req) == {node})
  }

  method NodeFromAccessibility(requirement: Option<Requirement>) returns (r: Result<string, Code>)
    ensures r.Ok? <==> requirement.Some? && exists node :: Chosen(requirement.value, node)
    ensures r.Ok? ==> Chosen(requirement.value, r.value) && r.value != ""
    ensures r.Err? ==> r.error == InvalidArgument
  {
    if requirement == None {
      return Err(InvalidArgument);
    }
    var req := requirement.value;
    var requisiteNodes := {};
    for i := 0 to |req.requisite|
      invariant requisiteNodes == set j | 0 <= j < i && NodeIn(req.requisite[j]) != "" :: NodeIn(req.requisite[j])
    {
      var node := NodeIn(req.requisite[i]);
      if node != "" {
        requisiteNodes := requisiteNodes + {node};
      }
    }
    assert requisiteNodes == RequisiteNodes(req);
    for i := 0 to |req.preferred|
      invariant forall j | 0 <= j < i :: NodeIn(req.preferred[j]) == ""
    {
      var node := NodeIn(req.preferred[i]);
      if node == "" {
        continue;
      }
      assert FirstNamed(req.preferred, i);
      if requisiteNodes != {} && node !in requisiteNodes {
        forall other ensures !Chosen(req, other) {
          OneFirst(req.preferred, i);
        }
        return Err(InvalidArgument);
      }
      assert Chosen(req, node);
      return Ok(node);
    }
    assert NoneNamed(req.preferred);
    assert forall i :: !FirstNamed(req.preferred, i);
    if |requisiteNodes| != 1 {
      forall other ensures !Chosen(req, other) {
        assert RequisiteNodes(req) != {other};
      }
      return Err(InvalidArgument);
    }
    var node :| node in requisiteNodes;
    OneElement(requisiteNodes, node);
    assert Chosen(req, node);
    return Ok(node);
  }

  /** A requirement with one topology, preferred or requisite, chooses the node that its topology key names. */
  lemma NamedNodeChosen(node: string, req: Requirement)
    requires node != ""
    requires var t := Topology(map["topology.lvm.csi/node" := node]);
             req == Requirement([t], []) || req == Requirement([], [t]) || req == Requirement([t], [t])
    ensures Chosen(req, node)
  {
    var t := Topology(map["topology.lvm.csi/node" := node]);
    assert NodeIn(t) == node;
    if req.preferred == [t] {
      assert FirstNamed(req.preferred, 0);
      assert req.requisite == [t] ==> t in req.requisite;
    } else {
      assert t in req.requisite;
    }
  }

  lemma OneFirst(preferred: seq<Topology>, i: int)
    requires FirstNamed(preferred, i)
    ensures forall j | FirstNamed(preferred, j) :: j == i
    ensures !NoneNamed(preferred)
  {
  }

  lemma OneElement<T>(s: set<T>, x: T)
    requires |s| == 1 && x in s
    ensures s == {x}
  {
    assert |s - {x}| == 0;
  }

  /** At most one node can be chosen, and the order of the requisite topologies and repetitions play no part. */
  lemma ChoiceOrderIndependent(a: Requirement, b: Requirement, n1: string, n2: string)
    requires a.preferred == b.preferred && RequisiteNodes(a) == RequisiteNodes(b)
    requires Chosen(a, n1) && Chosen(b, n2)
    ensures n1 == n2
  {
    if !NoneNamed(a.preferred) {
      var i :| FirstNamed(a.preferred, i) && NodeIn(a.preferred[i]) == n1;
      OneFirst(a.preferred, i);
    } else {
      assert forall i :: !FirstNamed(a.preferred, i);
      assert n1 in RequisiteNodes(b);
    }
  }

  /** Whatever is chosen is allowed: when there are requisite nodes, it is one of them. */
  lemma ChosenIsAllowed(req: Requirement, node: string)
    requires Chosen(req, node) && RequisiteNodes(req) != {}
    ensures node in RequisiteNodes(req)
  {
    if !NoneNamed(req.preferred) {
      var i :| FirstNamed(req.preferred, i) && NodeIn(req.preferred[i]) == node;
      OneFirst(req.preferred, i);
    } else {
      assert forall i :: !FirstNamed(req.preferred, i);
    }
  }

  // ---------------------------------------------------------------- persistent volumes

  datatype Operator = In | OtherOperator

  datatype Expression = Expression(key: string, operator: Operator, values: seq<string>)

  /** terms: a list of terms, each a list of expressions; None without a required affinity. */
  datatype PersistentVolume = PersistentVolume(csi: Option<Attributes>, terms: Option<seq<seq<Expression>>>)

  ghost predicate Listed(terms: seq<seq<Expression>>, e: Expression) {
    exists i | 0 <= i < |terms| :: e in terms[i]
  }

  ghost predicate Names(terms: seq<seq<Expression>>, node: string) {
    node != "" && exists e :: Listed(terms, e) && e.key == TOPOLOGY_NODE_KEY && node in e.values
  }

  /** Every topology expression uses In, and together they name this one node. */
  ghost predicate OnlyNode(terms: seq<seq<Expression>>, node: string) {
    && (forall e | Listed(terms, e) && e.key == TOPOLOGY_NODE_KEY :: e.operator.In?)
    && (forall n :: Names(terms, n) <==> n == node)
  }

  /** One topology expression with another operator, and no node is found, whatever the others say. */
  lemma OtherOperatorRefused(terms: seq<seq<Expression>>, e: Expression, node: string)
    requires Listed(terms, e) && e.key == "topology.lvm.csi/node" && e.operator == OtherOperator
    ensures !OnlyNode(terms, node)
  {
  }

  /** Two nodes are named, and none is found. */
  lemma TwoNodesRefused(terms: seq<seq<Expression>>, e: Expression, f: Expression, n1: string, n2: string, node: string)
    requires Listed(terms, e) && e.key == "topology.lvm.csi/node" && n1 in e.values && n1 != ""
    requires Listed(terms, f) && f.key == "topology.lvm.csi/node" && n2 in f.values && n2 != "" && n1 != n2
    ensures !OnlyNode(terms, node)
  {
    assert Names(terms, n1) && Names(terms, n2);
  }

  method MatchExpressionsFromTerms(terms: seq<seq<Expression>>) returns (expressions: seq<Expression>)
    ensures forall e :: e in expressions <==> Listed(terms, e)
  {
    expressions := [];
    for i := 0 to |terms|
      invariant forall e :: e in expressions <==> exists j | 0 <= j < i :: e in terms[j]
    {
      expressions := expressions + terms[i];
    }
  }

  method NonEmptyValues(values: seq<string>, before: set<string>) returns (nodes: set<string>)
    ensures forall n :: n in nodes <==> n in before || (n != "" && n in values)
  {
    nodes := before;
    for i := 0 to |values|
      invariant forall n :: n in nodes <==> n in before || (n != "" && n in values[..i])
    {
      assert values[..i + 1] == values[..i] + [values[i]];
      if values[i] != "" {
        nodes := nodes + {values[i]};
      }
    }
    assert values[..|values|] == values;
  }

  method NodeFromPVAffinity(terms: Option<seq<seq<Expression>>>) returns (r: Result<string, Code>)
    ensures r.Ok? <==> terms.Some? && exists node :: OnlyNode(terms.value, node)
    ensures r.Ok? ==> OnlyNode(terms.value, r.value) && r.value != ""
  {
    if terms == None {
      return Err(Other);
    }
    var expressions := MatchExpressionsFromTerms(terms.value);
    var nodes: set<string> := {};
    for i := 0 to |expressions|
      invariant forall j | 0 <= j < i && expressions[j].key == TOPOLOGY_NODE_KEY :: expressions[j].operator.In?
      invariant forall n :: n in nodes <==>
                  n != "" && exists j | 0 <= j < i :: expressions[j].key == TOPOLOGY_NODE_KEY && n in expressions[j].values
    {
      if expressions[i].key != TOPOLOGY_NODE_KEY {
        continue;
      }
      if !expressions[i].operator.In? {
        assert expressions[i] in expressions;
        return Err(Other);
      }
      nodes := NonEmptyValues(expressions[i].values, nodes);
    }
    assert forall n :: n in nodes <==> Names(terms.value, n) by {
      forall n ensures n in nodes <==> Names(terms.value, n) {
        NamesByIndex(terms.value, expressions, n);
      }
    }
    if |nodes| != 1 {
      forall node ensures !OnlyNode(terms.value, node) {
        assert nodes != {node};
      }
      return Err(Other);
    }
    var node :| node in nodes;
    OneElement(nodes, node);
    assert OnlyNode(terms.value, node);
    return Ok(node);
  }

  lemma NamesByIndex(terms: seq<seq<Expression>>, expressions: seq<Expression>, n: string)
    requires forall e :: e in expressions <==> Listed(terms, e)
    ensures Names(terms, n) <==>
              n != "" && exists j | 0 <= j < |expressions| :: expressions[j].key == TOPOLOGY_NODE_KEY && n in expressions[j].values
  {
    if Names(terms, n) {
      var e :| Listed(terms, e) && e.key == TOPOLOGY_NODE_KEY && n in e.values;
      assert e in expressions;
    }
    if n != "" && exists j | 0 <= j < |expressions| :: expressions[j].key == TOPOLOGY_NODE_KEY && n in expressions[j].values {
      var j :| 0 <= j < |expressions| && expressions[j].key == TOPOLOGY_NODE_KEY && n in expressions[j].values;
      assert expressions[j] in expressions;
    }
  }

  /** The order and grouping of the expressions play no part. */
  lemma AffinityOrderIndependent(a: seq<seq<Expression>>, b: seq<seq<Expression>>, node: string)
    requires forall e :: Listed(a, e) <==> Listed(b, e)
    ensures OnlyNode(a, node) <==> OnlyNode(b, node)
  {
    forall n ensures Names(a, n) <==> Names(b, n) { }
  }

  // ---------------------------------------------------------------- parameters, context and what is read back

  /** parseLVMParameters accepts. */
  predicate ValidParameters(parameters: Attributes) {
    KnownType(Lookup(parameters, TYPE_KEY)) && ValidVGName(Lookup(parameters, VG_KEY))
  }

  method BuildVolumeContext(parameters: Attributes, requiredBytes: int) returns (context: Attributes)
    ensures context == parameters[BYTES_KEY := FormatInt(requiredBytes)]
  {
    context := map[];
    var rest := parameters.Keys;
    while rest != {}
      invariant rest <= parameters.Keys
      invariant context == map k | k in parameters && k !in rest :: parameters[k]
    {
      var key :| key in rest;
      context, rest := context[key := parameters[key]], rest - {key};
    }
    context := context[BYTES_KEY := FormatInt(requiredBytes)];
  }

  /** metadataFromPV succeeds with these values. */
  ghost predicate MetadataOf(pv: PersistentVolume, node: string, vgName: string, lvmType: string) {
    && pv.csi.Some? && pv.terms.Some?
    && vgName == Lookup(pv.csi.value, VG_KEY) && ValidVGName(vgName)
    && lvmType == Lookup(pv.csi.value, TYPE_KEY) && KnownType(lvmType)
    && OnlyNode(pv.terms.value, node)
  }

  /** Written out: a group and a type that the driver knows, and one node. */
  lemma MetadataMeans(pv: PersistentVolume, node: string, vgName: string, lvmType: string)
    ensures MetadataOf(pv, node, vgName, lvmType) <==>
              && pv.csi.Some? && pv.terms.Some?
              && "vgName" in pv.csi.value && vgName == pv.csi.value["vgName"] && ValidVGName(vgName)
              && "type" in pv.csi.value && lvmType == pv.csi.value["type"] && lvmType in {"striped", "dm-thin"}
              && OnlyNode(pv.terms.value, node)
  {
  }

  datatype Metadata = Metadata(node: string, vgName: string, lvmType: string)

  method MetadataFromPV(pv: PersistentVolume) returns (r: Result<Metadata, Code>)
    ensures r.Ok? ==> MetadataOf(pv, r.value.node, r.value.vgName, r.value.lvmType)
    ensures r.Err? ==> forall node, vgName, lvmType :: !MetadataOf(pv, node, vgName, lvmType)
  {
    if pv.csi == None {
      return Err(Other);
    }
    var vgName, lvmType := Lookup(pv.csi.value, VG_KEY), Lookup(pv.csi.value, TYPE_KEY);
    if vgName == "" || !ValidVGName(vgName) {
      return Err(Other);
    }
    if !KnownType(lvmType) {
      return Err(Other);
    }
    var node := NodeFromPVAffinity(pv.terms);
    if node.Err? {
      return Err(node.error);
    }
    return Ok(Metadata(node.value, vgName, lvmType));
  }

  function RequiredBytes(pv: PersistentVolume): Option<int> {
    if pv.csi == None then None
    else match ParseInt64(Lookup(pv.csi.value, BYTES_KEY))
      case Some(size) => if size > 0 then Some(size) else None
      case None => None
  }

  /** The size is read exactly if it is a positive number of 64 bits. */
  lemma RequiredBytesMean(pv: PersistentVolume, size: int)
    ensures RequiredBytes(pv) == Some(size) <==>
              && pv.csi.Some? && "RequiredBytes" in pv.csi.value
              && ParseInt64(pv.csi.value["RequiredBytes"]) == Some(size) && size > 0
  {
  }

  // ---------------------------------------------------------------- creation and reading back

  datatype Published = Published(context: Attributes, topology: seq<Topology>, capacity: int)

  /** The requests that CreateVolume provisions for. */
  ghost predicate Accepted(parameters: Attributes, requiredBytes: Option<int>, requirement: Option<Requirement>) {
    && ValidParameters(parameters)
    && requiredBytes.Some? && requiredBytes.value > 0
    && requirement.Some? && exists node :: Chosen(requirement.value, node)
  }

  lemma ParametersMean(parameters: Attributes)
    ensures ValidParameters(parameters) <==>
              && "type" in parameters && parameters["type"] in {"striped", "dm-thin"}
              && "vgName" in parameters && ValidVGName(parameters["vgName"])
  {
  }

  /**
   The metadata part of CreateVolume; the capacity is the request's required bytes. provision: how the helper for the
   chosen node and size ends.
   */
  method Publish(parameters: Attributes, requiredBytes: Option<int>, requirement: Option<Requirement>,
                 provision: (string, int) -> Result<(), Code>)
    returns (r: Result<Published, Code>)
    ensures !Accepted(parameters, requiredBytes, requirement) ==> r == Err(InvalidArgument)
    ensures Accepted(parameters, requiredBytes, requirement) ==>
              exists node :: Chosen(requirement.value, node) && node != ""
                             && match provision(node, requiredBytes.value)
                                case Err(code) => r == Err(code)
                                case Ok(_) =>
                                  r == Ok(Published(parameters[BYTES_KEY := FormatInt(requiredBytes.value)],
                                                    [Topology(map[TOPOLOGY_NODE_KEY := node])], requiredBytes.value))
  {
    if !KnownType(Lookup(parameters, TYPE_KEY)) {
      return Err(InvalidArgument);
    }
    if Lookup(parameters, VG_KEY) == "" || !ValidVGName(Lookup(parameters, VG_KEY)) {
      return Err(InvalidArgument);
    }
    if requiredBytes == None || requiredBytes.value <= 0 {
      return Err(InvalidArgument);
    }
    var context := BuildVolumeContext(parameters, requiredBytes.value);
    var node := NodeFromAccessibility(requirement);
    if node.Err? {
      return Err(node.error);
    }
    var provisioned := provision(node.value, requiredBytes.value);
    if provisioned.Err? {
      return Err(provisioned.error);
    }
    return Ok(Published(context, [Topology(map[TOPOLOGY_NODE_KEY := node.value])], requiredBytes.value));
  }

  /** The provisioner keeps the context among the attributes and turns each topology into a term of In expressions. */
  ghost predicate Carries(pv: PersistentVolume, published: Published) {
    && pv.csi.Some? && pv.terms.Some?
    && (forall k | k in published.context :: k in pv.csi.value && pv.csi.value[k] == published.context[k])
    && |pv.terms.value| == |published.topology|
    && forall i | 0 <= i < |published.topology| ::
         forall e :: e in pv.terms.value[i] <==>
           e.key in published.topology[i].segments && e == Expression(e.key, In, [published.topology[i].segments[e.key]])
  }

  lemma KeysDiffer()
    ensures BYTES_KEY != VG_KEY && BYTES_KEY != TYPE_KEY
  {
    assert BYTES_KEY[0] == 'R' && VG_KEY[0] == 'v' && TYPE_KEY[0] == 't';
  }

  lemma TermNamesNode(terms: seq<seq<Expression>>, node: string)
    requires node != "" && |terms| == 1
    requires forall e :: e in terms[0] <==> e == Expression(TOPOLOGY_NODE_KEY, In, [node])
    ensures OnlyNode(terms, node)
  {
    var wanted := Expression(TOPOLOGY_NODE_KEY, In, [node]);
    assert wanted in terms[0];
    assert Listed(terms, wanted);
    forall n ensures Names(terms, n) <==> n == node {
      if n == node { assert n in wanted.values; }
    }
  }

  /**
   What CreateVolume published is what later calls read back, for every accepted request: also when the parameters
   already had a RequiredBytes key, and whatever further attributes the provisioner adds.
   */
  lemma PublishedIsReadBack(parameters: Attributes, requiredBytes: int, node: string, published: Published,
                            pv: PersistentVolume)
    requires ValidParameters(parameters) && 0 < requiredBytes <= MAX_INT64 && node != ""
    requires published == Published(parameters[BYTES_KEY := FormatInt(requiredBytes)],
                                    [Topology(map[TOPOLOGY_NODE_KEY := node])], requiredBytes)
    requires Carries(pv, published)
    ensures forall n, vgName, lvmType :: MetadataOf(pv, n, vgName, lvmType) <==>
              n == node && vgName == Lookup(parameters, VG_KEY) && lvmType == Lookup(parameters, TYPE_KEY)
    ensures RequiredBytes(pv) == Some(requiredBytes)
  {
    KeysDiffer();
    FormatParse(requiredBytes);
    assert VG_KEY in published.context && TYPE_KEY in published.context && BYTES_KEY in published.context;
    var terms := pv.terms.value;
    forall e ensures e in terms[0] <==> e == Expression(TOPOLOGY_NODE_KEY, In, [node]) {
      assert published.topology[0].segments == map[TOPOLOGY_NODE_KEY := node];
    }
    TermNamesNode(terms, node);
    forall n ensures OnlyNode(terms, n) <==> n == node {
      if OnlyNode(terms, n) { assert Names(terms, node); }
    }
  }
}
