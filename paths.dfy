/**
 * How the simulations build their vehicle paths from the road graph's node
 * list: path i takes the nodes at positions i, i + stride and i + 2 * stride,
 * for i in a fixed range. A node list too short for the largest position makes
 * the construction fail, where the source stops with an index error.
 */
module Paths {

  datatype Option<T> = None | Some(value: T)

  /** The node at position i of the list, if there is one. */
  function NodeAt<T>(nodes: seq<T>, i: nat): (r: Option<T>)
    ensures r.Some? <==> i < |nodes|
    ensures r.Some? ==> r.value == nodes[i]
  {
    if i < |nodes| then Some(nodes[i]) else None
  }

  /** The three-waypoint path starting at position i. */
  function PathAt<T>(nodes: seq<T>, i: nat, stride: nat): Option<seq<T>>
  {
    match (NodeAt(nodes, i), NodeAt(nodes, i + stride), NodeAt(nodes, i + 2 * stride))
    case (Some(a), Some(b), Some(c)) => Some([a, b, c])
    case _ => None
  }

  /** The paths for i = from, ..., to - 1, in that order. */
  function OffsetPaths<T>(nodes: seq<T>, from: nat, to: nat, stride: nat): (r: Option<seq<seq<T>>>)
    decreases to - from
    ensures r.Some? <==> from >= to || to - 1 + 2 * stride < |nodes|
    ensures r.Some? ==> |r.value| == if from < to then to - from else 0
    ensures r.Some? ==> forall k :: 0 <= k < |r.value| ==>
              r.value[k] == [nodes[from + k], nodes[from + k + stride], nodes[from + k + 2 * stride]]
  {
    if from >= to then Some([])
    else
      match PathAt(nodes, from, stride)
      case None => None
      case Some(p) =>
        match OffsetPaths(nodes, from + 1, to, stride)
        case None => None
        case Some(ps) => Some([p] + ps)
  }

  /** The five malicious paths of DDOS.py and BRSUMMain.py: consecutive nodes i, i+1, i+2 for i in 0..4. */
  function MaliciousPaths<T>(nodes: seq<T>): Option<seq<seq<T>>>
  {
    OffsetPaths(nodes, 0, 5, 1)
  }

  /** The five legitimate paths of DDOS.py and BRSUMMain.py: nodes i, i+3, i+6 for i in 5..9. */
  function LegitimatePaths<T>(nodes: seq<T>): Option<seq<seq<T>>>
  {
    OffsetPaths(nodes, 5, 10, 3)
  }

  /** The five paths of Baseline.py: nodes i, i+3, i+6 for i in 0..4. */
  function BaselinePaths<T>(nodes: seq<T>): Option<seq<seq<T>>>
  {
    OffsetPaths(nodes, 0, 5, 3)
  }

  /**
   * The two-class setups build all their paths exactly when the graph has at
   * least 16 nodes; then there are five of each, of three waypoints, and the
   * malicious ones start at the first five nodes.
   */
  lemma TwoClassSetupNeedsSixteenNodes<T>(nodes: seq<T>)
    ensures (MaliciousPaths(nodes).Some? && LegitimatePaths(nodes).Some?) <==> |nodes| >= 16
    ensures MaliciousPaths(nodes).Some? ==>
              |MaliciousPaths(nodes).value| == 5
              && forall k :: 0 <= k < 5 ==> MaliciousPaths(nodes).value[k] == nodes[k..k + 3]
    ensures LegitimatePaths(nodes).Some? ==>
              |LegitimatePaths(nodes).value| == 5
              && forall k :: 0 <= k < 5 ==>
                   LegitimatePaths(nodes).value[k] == [nodes[5 + k], nodes[8 + k], nodes[11 + k]]
  {
  }

  /** The single-class setup builds its paths exactly when the graph has at least 11 nodes. */
  lemma BaselineSetupNeedsElevenNodes<T>(nodes: seq<T>)
    ensures BaselinePaths(nodes).Some? <==> |nodes| >= 11
    ensures BaselinePaths(nodes).Some? ==>
              |BaselinePaths(nodes).value| == 5
              && forall k :: 0 <= k < 5 ==> BaselinePaths(nodes).value[k] == [nodes[k], nodes[k + 3], nodes[k + 6]]
  {
  }
}
