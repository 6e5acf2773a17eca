/**
 * useSelectionHandler.ts: copy and paste of a selection in the visual-script
 * graph editor. Paste clones the copied nodes with fresh ids, shifted right
 * past the copied group, and re-points the copied edges through the old to
 * new id map.
 *
 * uuidv4 is an injected supply `uuids`: the k-th id the handler draws is
 * `uuids(k)`. The React state hooks become the fields of a class; the graph's
 * `onNodesChange`/`onEdgesChange` callbacks become logs of the change lists
 * passed to them.
 */
module SelectionHandler {
  import opened Wrappers

  datatype Position = Position(x: real, y: real)

  /** A graph node: id, position, measured width, and the fields paste copies as they are. */
  datatype Node = Node(id: string, position: Position, width: real, kind: string, data: map<string, string>)

  /** A graph edge; an endpoint is None when it names no node (JavaScript undefined). */
  datatype Edge = Edge(id: string, source: Option<string>, target: Option<string>,
                       sourceHandle: string, targetHandle: string)

  // ---------------------------------------------------------------------------
  // The geometry of a paste

  /** `Math.min(...xs)` over the nodes' x positions. */
  function MinX(nodes: seq<Node>): (m: real)
    requires |nodes| > 0
    ensures forall i :: 0 <= i < |nodes| ==> m <= nodes[i].position.x
    ensures exists i :: 0 <= i < |nodes| && m == nodes[i].position.x
  {
    if |nodes| == 1 then nodes[0].position.x
    else
      var rest := MinX(nodes[1..]);
      assert forall i :: 1 <= i < |nodes| ==> nodes[i] == nodes[1..][i - 1];
      if nodes[0].position.x <= rest then nodes[0].position.x else rest
  }

  /** `Math.max(...xs)` over the nodes' x positions. */
  function MaxX(nodes: seq<Node>): (m: real)
    requires |nodes| > 0
    ensures forall i :: 0 <= i < |nodes| ==> nodes[i].position.x <= m
    ensures exists i :: 0 <= i < |nodes| && m == nodes[i].position.x
  {
    if |nodes| == 1 then nodes[0].position.x
    else
      var rest := MaxX(nodes[1..]);
      assert forall i :: 1 <= i < |nodes| ==> nodes[i] == nodes[1..][i - 1];
      if nodes[0].position.x >= rest then nodes[0].position.x else rest
  }

  /** The `reduce` that finds the node with the largest x over the first `n`
      nodes, starting from the first node and switching only on a strictly
      larger x: the position of the first node with the largest x. */
  function FirstMaxIndex(nodes: seq<Node>, n: nat): (i: nat)
    requires 0 < n <= |nodes|
    ensures i < n
    ensures forall j :: 0 <= j < n ==> nodes[j].position.x <= nodes[i].position.x
    ensures forall j :: 0 <= j < i ==> nodes[j].position.x < nodes[i].position.x
  {
    if n == 1 then 0
    else
      var acc := FirstMaxIndex(nodes, n - 1);
      if nodes[n - 1].position.x > nodes[acc].position.x then n - 1 else acc
  }

  /** `nodeMaxPosX`: the first copied node with the largest x. */
  function MaxNode(nodes: seq<Node>): (r: Node)
    requires |nodes| > 0
    ensures r in nodes && r.position.x == MaxX(nodes)
  {
    nodes[FirstMaxIndex(nodes, |nodes|)]
  }

  /** The x of a pasted node: `maxPosLeft + (x - minPosLeft) + width + 20`. */
  function PastedX(nodes: seq<Node>, x: real): real
    requires |nodes| > 0
  {
    MaxX(nodes) + (x - MinX(nodes)) + MaxNode(nodes).width + 20.0
  }

  /** The clone of the i-th copied node: id `uuids(start + i)` and the pasted x. */
  function PastedNode(nodes: seq<Node>, uuids: nat -> string, start: nat, i: nat): Node
    requires i < |nodes|
  {
    nodes[i].(id := uuids(start + i), position := Position(PastedX(nodes, nodes[i].position.x), nodes[i].position.y))
  }

  /** The nodes a paste adds, in the order of the copied nodes. */
  function PastedNodes(nodes: seq<Node>, uuids: nat -> string, start: nat): (r: seq<Node>)
    ensures |r| == |nodes|
    ensures forall i :: 0 <= i < |nodes| ==> r[i] == PastedNode(nodes, uuids, start, i)
  {
    seq(|nodes|, i requires 0 <= i < |nodes| => PastedNode(nodes, uuids, start, i))
  }

  /** One pasted node per copied node, in order: a fresh id, the same y and
      the same other fields; every x moves by the same amount, the span of
      the group plus the width of its rightmost node plus 20, so the group
      keeps its shape and lands to the right of where it was copied from. */
  lemma PasteShape(nodes: seq<Node>, uuids: nat -> string, start: nat)
    requires |nodes| > 0
    ensures var r := PastedNodes(nodes, uuids, start);
      var shift := MaxX(nodes) - MinX(nodes) + MaxNode(nodes).width + 20.0;
      && shift >= MaxNode(nodes).width + 20.0
      && forall i :: 0 <= i < |nodes| ==>
           && r[i].id == uuids(start + i)
           && r[i].position.x == nodes[i].position.x + shift
           && r[i].position.y == nodes[i].position.y
           && r[i].width == nodes[i].width && r[i].kind == nodes[i].kind && r[i].data == nodes[i].data
  {
  }

  /** With a non-negative width of its rightmost node, the pasted group lies
      strictly to the right of every copied node. */
  lemma PasteLandsRightOfGroup(nodes: seq<Node>, uuids: nat -> string, start: nat, i: nat, j: nat)
    requires i < |nodes| && j < |nodes| && MaxNode(nodes).width >= 0.0
    ensures PastedNodes(nodes, uuids, start)[i].position.x > nodes[j].position.x
    ensures PastedNodes(nodes, uuids, start)[i].position.x - PastedNodes(nodes, uuids, start)[j].position.x
            == nodes[i].position.x - nodes[j].position.x
  {
    assert MinX(nodes) <= nodes[i].position.x;
    assert nodes[j].position.x <= MaxX(nodes);
  }

  // ---------------------------------------------------------------------------
  // Re-pointing edges

  /** `nodeIdMap` after the first `n` copied nodes drew their ids: a later
      node with the same id overwrites an earlier one. */
  function IdMap(nodes: seq<Node>, uuids: nat -> string, start: nat, n: nat): map<string, string>
    requires n <= |nodes|
  {
    if n == 0 then map[]
    else IdMap(nodes, uuids, start, n - 1)[nodes[n - 1].id := uuids(start + n - 1)]
  }

  /** The map holds exactly the ids of the copied nodes. */
  lemma {:induction false} IdMapKeys(nodes: seq<Node>, uuids: nat -> string, start: nat, n: nat, id: string)
    requires n <= |nodes|
    ensures id in IdMap(nodes, uuids, start, n) <==> exists i :: 0 <= i < n && nodes[i].id == id
  {
    if n > 0 {
      IdMapKeys(nodes, uuids, start, n - 1, id);
    }
  }

  predicate DistinctIds(nodes: seq<Node>)
  {
    forall i, j :: 0 <= i < j < |nodes| ==> nodes[i].id != nodes[j].id
  }

  /** With distinct ids, each copied node's id maps to the id of its clone. */
  lemma {:induction false} IdMapAt(nodes: seq<Node>, uuids: nat -> string, start: nat, n: nat, i: nat)
    requires n <= |nodes| && i < n && DistinctIds(nodes)
    ensures nodes[i].id in IdMap(nodes, uuids, start, n)
    ensures IdMap(nodes, uuids, start, n)[nodes[i].id] == uuids(start + i)
  {
    if i < n - 1 {
      IdMapAt(nodes, uuids, start, n - 1, i);
    }
  }

  /** `nodeIdMap[id]`: undefined for an id no copied node has. */
  function Repoint(idMap: map<string, string>, endpoint: Option<string>): Option<string>
  {
    if endpoint.Some? && endpoint.value in idMap then Some(idMap[endpoint.value]) else None
  }

  /** The j-th pasted edge: id `uuids(start + j)`, endpoints looked up in the id map. */
  function PastedEdge(edges: seq<Edge>, idMap: map<string, string>, uuids: nat -> string, start: nat, j: nat): Edge
    requires j < |edges|
  {
    edges[j].(id := uuids(start + j), source := Repoint(idMap, edges[j].source),
              target := Repoint(idMap, edges[j].target))
  }

  /** The edges a paste adds, in the order of the copied edges. */
  function PastedEdges(edges: seq<Edge>, idMap: map<string, string>, uuids: nat -> string, start: nat): (r: seq<Edge>)
    ensures |r| == |edges|
    ensures forall j :: 0 <= j < |edges| ==> r[j] == PastedEdge(edges, idMap, uuids, start, j)
  {
    seq(|edges|, j requires 0 <= j < |edges| => PastedEdge(edges, idMap, uuids, start, j))
  }

  /** An edge between two copied nodes becomes an edge between their clones. */
  lemma EdgeFollowsClones(nodes: seq<Node>, edges: seq<Edge>, uuids: nat -> string, start: nat,
                          j: nat, a: nat, b: nat)
    requires DistinctIds(nodes) && j < |edges| && a < |nodes| && b < |nodes|
    requires edges[j].source == Some(nodes[a].id) && edges[j].target == Some(nodes[b].id)
    ensures var clones := PastedNodes(nodes, uuids, start);
      var e := PastedEdges(edges, IdMap(nodes, uuids, start, |nodes|), uuids, start + |nodes|)[j];
      e.source == Some(clones[a].id) && e.target == Some(clones[b].id)
      && e.id == uuids(start + |nodes| + j)
      && e.sourceHandle == edges[j].sourceHandle && e.targetHandle == edges[j].targetHandle
  {
    IdMapAt(nodes, uuids, start, |nodes|, a);
    IdMapAt(nodes, uuids, start, |nodes|, b);
  }

  // ---------------------------------------------------------------------------
  // The hook's state

  class SelectionHandler {
    const uuids: nat -> string
    /** how many ids have been drawn from `uuids` */
    var drawn: nat
    var selectedNodes: seq<Node>
    var selectedEdges: seq<Edge>
    var copiedNodes: seq<Node>
    var copiedEdges: seq<Edge>
    /** the change lists passed to onNodesChange / onEdgesChange, oldest first */
    var nodeChanges: seq<seq<Node>>
    var edgeChanges: seq<seq<Edge>>

    constructor (uuids: nat -> string)
      ensures this.uuids == uuids && drawn == 0
      ensures selectedNodes == [] && selectedEdges == [] && copiedNodes == [] && copiedEdges == []
      ensures nodeChanges == [] && edgeChanges == []
    {
      this.uuids := uuids;
      drawn := 0;
      selectedNodes := [];
      selectedEdges := [];
      copiedNodes := [];
      copiedEdges := [];
      nodeChanges := [];
      edgeChanges := [];
    }

    method OnSelectionChange(nodes: seq<Node>, edges: seq<Edge>)
      modifies this
      ensures selectedNodes == nodes && selectedEdges == edges
      ensures copiedNodes == old(copiedNodes) && copiedEdges == old(copiedEdges)
      ensures nodeChanges == old(nodeChanges) && edgeChanges == old(edgeChanges) && drawn == old(drawn)
    {
      selectedNodes := nodes;
      selectedEdges := edges;
    }

    method CopyNodes()
      modifies this
      ensures copiedNodes == old(selectedNodes) && copiedEdges == old(selectedEdges)
      ensures selectedNodes == old(selectedNodes) && selectedEdges == old(selectedEdges)
      ensures nodeChanges == old(nodeChanges) && edgeChanges == old(edgeChanges) && drawn == old(drawn)
    {
      copiedNodes := selectedNodes;
      copiedEdges := selectedEdges;
    }

    /** pasteNodes: one `add` change per clone, in order, then one per
        re-pointed edge; the clones become the copied nodes, the copied edges
        stay as they were. Node ids are drawn before edge ids. */
    method PasteNodes()
      modifies this
      ensures var clones := PastedNodes(old(copiedNodes), uuids, old(drawn));
        && nodeChanges == old(nodeChanges) + [clones]
        && edgeChanges == old(edgeChanges)
             + [PastedEdges(old(copiedEdges), IdMap(old(copiedNodes), uuids, old(drawn), |old(copiedNodes)|),
                            uuids, old(drawn) + |old(copiedNodes)|)]
        && copiedNodes == clones
      ensures copiedEdges == old(copiedEdges)
      ensures drawn == old(drawn) + |old(copiedNodes)| + |old(copiedEdges)|
      ensures selectedNodes == old(selectedNodes) && selectedEdges == old(selectedEdges)
    {
      var clones := PastedNodes(copiedNodes, uuids, drawn);
      var idMap := IdMap(copiedNodes, uuids, drawn, |copiedNodes|);
      var edges := PastedEdges(copiedEdges, idMap, uuids, drawn + |copiedNodes|);
      nodeChanges := nodeChanges + [clones];
      edgeChanges := edgeChanges + [edges];
      drawn := drawn + |copiedNodes| + |copiedEdges|;
      copiedNodes := clones;
    }

    /** The copy shortcut's effect: copy only on a press with a non-empty selection. */
    method OnCopyShortcut(pressed: bool)
      modifies this
      ensures pressed && |old(selectedNodes)| > 0 ==>
                copiedNodes == old(selectedNodes) && copiedEdges == old(selectedEdges)
      ensures !(pressed && |old(selectedNodes)| > 0) ==>
                copiedNodes == old(copiedNodes) && copiedEdges == old(copiedEdges)
      ensures selectedNodes == old(selectedNodes) && selectedEdges == old(selectedEdges)
      ensures nodeChanges == old(nodeChanges) && edgeChanges == old(edgeChanges) && drawn == old(drawn)
    {
      if !pressed || |selectedNodes| == 0 {
        return;
      }
      CopyNodes();
    }

    /** The paste shortcut's effect: paste only on a press with copied nodes. */
    method OnPasteShortcut(pressed: bool)
      modifies this
      ensures !(pressed && |old(copiedNodes)| > 0) ==>
                nodeChanges == old(nodeChanges) && edgeChanges == old(edgeChanges)
                && copiedNodes == old(copiedNodes) && drawn == old(drawn)
      ensures pressed && |old(copiedNodes)| > 0 ==>
                nodeChanges == old(nodeChanges) + [PastedNodes(old(copiedNodes), uuids, old(drawn))]
                && edgeChanges == old(edgeChanges)
                     + [PastedEdges(old(copiedEdges), IdMap(old(copiedNodes), uuids, old(drawn), |old(copiedNodes)|),
                                    uuids, old(drawn) + |old(copiedNodes)|)]
                && copiedNodes == PastedNodes(old(copiedNodes), uuids, old(drawn))
                && drawn == old(drawn) + |old(copiedNodes)| + |old(copiedEdges)|
                && |nodeChanges[|nodeChanges| - 1]| == |old(copiedNodes)| > 0
      ensures copiedEdges == old(copiedEdges)
      ensures selectedNodes == old(selectedNodes) && selectedEdges == old(selectedEdges)
    {
      if !pressed || |copiedNodes| == 0 {
        return;
      }
      PasteNodes();
    }
  }

  /** A second paste re-points the copied edges through the first paste's
      clones: when no drawn id equals an original node id, an edge that
      pointed at a copied node gets an undefined endpoint. */
  lemma SecondPasteLosesEndpoints(nodes: seq<Node>, edges: seq<Edge>, uuids: nat -> string, start: nat, j: nat, a: nat)
    requires j < |edges| && a < |nodes| && edges[j].source == Some(nodes[a].id)
    requires forall k: nat :: uuids(k) != nodes[a].id
    ensures var clones := PastedNodes(nodes, uuids, start);
      var second := start + |nodes| + |edges|;
      PastedEdges(edges, IdMap(clones, uuids, second, |clones|), uuids, second + |clones|)[j].source.None?
  {
    var clones := PastedNodes(nodes, uuids, start);
    var second := start + |nodes| + |edges|;
    IdMapKeys(clones, uuids, second, |clones|, nodes[a].id);
    forall i | 0 <= i < |clones| ensures clones[i].id != nodes[a].id {
      assert clones[i].id == uuids(start + i);
    }
  }
}
