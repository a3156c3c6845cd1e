/**
 Block index entries linked to their predecessors.
 */
module Headers {

  // Null is the predecessor of the genesis block.
  datatype Index =
    | Null
    | Index(
        pprev: Index,
        id: nat,
        time: nat,
        bits: nat,
        stake: bool,
        height: nat,
        powHeight: nat,
        proof: nat,
        entropy: bool,
        modifier: nat,
        generated: bool)

  // b and its predecessors
  predicate IsAncestor(a: Index, b: Index) {
    a == b || (b.Index? && IsAncestor(a, b.pprev))
  }
}
