/** Names that several components share: the topology key, the volume types, and volume groups as the driver accepts them. */
module DriverNames {

  const TOPOLOGY_NODE_KEY := "topology.lvm.csi/node"

  const STRIPED := "striped"
  const DM_THIN := "dm-thin"

  /** What the names of snapshot LVs begin with, and what the names of the snapshotter's own snapshots begin with. */
  const SNAPSHOT_LV := "lvm-"
  const SNAPSHOTTER_LV := "lvm-snapshot-"

  predicate KnownType(lvmType: string) {
    lvmType == STRIPED || lvmType == DM_THIN
  }

  predicate ValidVGChar(c: char) {
    'A' <= c <= 'Z' || 'a' <= c <= 'z' || '0' <= c <= '9' || c == '+' || c == '_' || c == '.' || c == '-'
  }

  predicate ValidVGName(name: string) {
    && name != ""
    && name != "." && name != ".."
    && name[0] != '-'
    && forall c | c in name :: ValidVGChar(c)
  }

  /** One or more letters, digits and + _ . -, not beginning with a hyphen, and neither of the two directory names. */
  lemma VGNameMeans(name: string)
    ensures ValidVGName(name) <==>
              && |name| > 0 && name[0] != '-' && name !in {".", ".."}
              && forall i | 0 <= i < |name| ::
                   'A' <= name[i] <= 'Z' || 'a' <= name[i] <= 'z' || '0' <= name[i] <= '9' || name[i] in "+_.-"
  {
    forall i | 0 <= i < |name|
      ensures ValidVGChar(name[i]) <==> 'A' <= name[i] <= 'Z' || 'a' <= name[i] <= 'z' || '0' <= name[i] <= '9'
                                        || name[i] in "+_.-"
    {
      assert "+_.-"[0] == '+' && "+_.-"[1] == '_' && "+_.-"[2] == '.' && "+_.-"[3] == '-';
    }
    assert (forall c | c in name :: ValidVGChar(c)) <==> forall i | 0 <= i < |name| :: ValidVGChar(name[i]);
    assert |name| == 2 && name[0] == '.' && name[1] == '.' ==> name == "..";
  }
}
