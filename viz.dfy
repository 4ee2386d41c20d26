/** The node graph of Graph.js: VizGraphNode objects held in the ordered
    `nodes` array of a VizGraph, which also hit-tests, selects, moves and
    draws them. Node identity is object identity. */
module Viz {
  import opened Geometry
  import opened Edges

  /** A graph vertex: its position, the nodes recorded as its parents, its
      outgoing edges and its selection flag. */
  class VizGraphNode {
    var position: Point
    var parents: seq<VizGraphNode>
    var children: seq<VizGraphNode>
    var selected: bool

    /** No node is a child twice. */
    ghost predicate Valid()
      reads this
    {
      Distinct(children)
    }

    constructor (position: Point)
      ensures this.position == position && parents == [] && children == [] && !selected
    {
      this.position := position;
      parents := [];
      children := [];
      selected := false;
    }

    /** Always appends, even a node that is already a parent. */
    method AddParent(node: VizGraphNode)
      modifies this`parents
      ensures parents == old(parents) + [node]
    {
      parents := parents + [node];
    }

    /** Appends `node` unless it already is a child. */
    method AddChild(node: VizGraphNode)
      modifies this`children
      ensures children == if old(HasChild(node)) then old(children) else old(children) + [node]
      ensures HasChild(node)
      ensures old(Valid()) ==> Valid()
    {
      if !HasChild(node) {
        if Valid() {
          DistinctSnoc(children, node);
        }
        children := children + [node];
      }
    }

    /** `children.includes(node)`: membership by object identity. */
    predicate HasChild(node: VizGraphNode)
      reads this
      ensures HasChild(node) <==> exists i :: 0 <= i < |children| && children[i] == node
    {
      node in children
    }

    /** The coordinate is within `radius` of the node's centre: a hit needs
        a non-negative radius and lies in the square of side `2 * radius`
        around the centre, and the centre itself always hits. */
    predicate IsHovering(coord: Point, radius: real)
      reads this
      ensures IsHovering(coord, radius) ==>
        0.0 <= radius
        && position.x - radius <= coord.x <= position.x + radius
        && position.y - radius <= coord.y <= position.y + radius
      ensures 0.0 <= radius && coord == position ==> IsHovering(coord, radius)
    {
      WithinRadiusBounds(position, coord, radius);
      WithinRadius(position, coord, radius)
    }

    /** Flips the flag, so that two calls restore it. */
    method ToggleSelected()
      modifies this`selected
      ensures selected == !old(selected)
    {
      selected := !selected;
    }
  }

  /** A node counts for hovering when it is not the ignored one and the
      coordinate lies within `radius` of its centre. */
  predicate Hits(node: VizGraphNode, coord: Point, radius: real, ignore: VizGraphNode?)
    reads node
  {
    node != ignore && node.IsHovering(coord, radius)
  }

  /** The adjacency lists of `ns` as they are now. */
  ghost function Snapshot(ns: seq<VizGraphNode>): (adj: Adjacency<VizGraphNode>)
    reads ns
    ensures Vertices(adj) == ns
    ensures forall k :: 0 <= k < |ns| ==> adj[k].1 == ns[k].children
  {
    seq(|ns|, k requires 0 <= k < |ns| reads ns => (ns[k], ns[k].children))
  }

  /** A valid graph is a well-formed snapshot, so draw_graph draws each
      segment once: no line twice and never both directions of two
      opposite edges. */
  lemma EachSegmentDrawnOnce(g: VizGraph)
    requires g.Valid()
    ensures WellFormed(Snapshot(g.nodes))
    ensures Distinct(Lines(Pass(VisitOrder(Snapshot(g.nodes))).strokes))
    ensures forall e :: (e in Lines(Pass(VisitOrder(Snapshot(g.nodes))).strokes)
      && Reverse(e) in Lines(Pass(VisitOrder(Snapshot(g.nodes))).strokes)) ==> e.0 == e.1
  {
    var adj := Snapshot(g.nodes);
    forall k | 0 <= k < |adj| ensures Distinct(adj[k].1) {
      assert g.nodes[k] in g.nodes && g.nodes[k].Valid();
    }
    DrawsEachSegmentOnce(adj);
  }

  /** The graph: the ordered node list plus the canvas work, of which only the
      decisions are modelled. */
  class VizGraph {
    var nodes: seq<VizGraphNode>

    /** Each node object occurs once (create_node always pushes a new one)
        and holds no duplicate child. */
    ghost predicate Valid()
      reads this, nodes
    {
      Distinct(nodes) && forall n :: n in nodes ==> n.Valid()
    }

    constructor ()
      ensures nodes == [] && Valid()
    {
      nodes := [];
    }

    /** Appends one new unselected node with no parents and no children; the
        earlier nodes and their order are kept. */
    method CreateNode(coord: Point)
      modifies this`nodes
      ensures |nodes| == |old(nodes)| + 1 && nodes[..|old(nodes)|] == old(nodes)
      ensures fresh(nodes[|old(nodes)|])
      ensures nodes[|old(nodes)|].position == coord && !nodes[|old(nodes)|].selected
      ensures nodes[|old(nodes)|].parents == [] && nodes[|old(nodes)|].children == []
      ensures old(Valid()) ==> Valid()
    {
      var node := new VizGraphNode(coord);
      if Valid() {
        DistinctSnoc(nodes, node);
      }
      nodes := nodes + [node];
      assert nodes[..|old(nodes)|] == old(nodes);
    }

    /** The first node in `nodes` order, other than `ignore`, within
        `specs.radius * scale` of `coord`; null when there is none. */
    method Hovering(coord: Point, scale: real, ignore: VizGraphNode?) returns (r: VizGraphNode?)
      ensures r == null <==> forall k :: 0 <= k < |nodes| ==> !Hits(nodes[k], coord, Radius * scale, ignore)
      ensures r != null ==> exists k :: (0 <= k < |nodes| && nodes[k] == r
        && Hits(r, coord, Radius * scale, ignore)
        && forall j :: 0 <= j < k ==> !Hits(nodes[j], coord, Radius * scale, ignore))
    {
      for i := 0 to |nodes|
        invariant forall j :: 0 <= j < i ==> !Hits(nodes[j], coord, Radius * scale, ignore)
      {
        var node := nodes[i];
        if node == ignore {
          continue;
        }
        if node.IsHovering(coord, Radius * scale) {
          assert Hits(nodes[i], coord, Radius * scale, ignore);
          return node;
        }
      }
      return null;
    }

    /** Resets every node's `selected` flag and nothing else. */
    method ClearSelections()
      modifies nodes
      ensures forall n :: n in nodes ==> !n.selected
      ensures forall n :: n in nodes ==>
        n.position == old(n.position) && n.parents == old(n.parents) && n.children == old(n.children)
    {
      for i := 0 to |nodes|
        invariant forall j :: 0 <= j < i ==> !nodes[j].selected
        invariant forall n :: n in nodes ==>
          n.position == old(n.position) && n.parents == old(n.parents) && n.children == old(n.children)
      {
        nodes[i].selected := false;
      }
    }

    /** Translates exactly the selected nodes by `delta`. */
    method MoveSelected(delta: Point)
      requires Distinct(nodes)
      modifies nodes
      ensures forall n :: n in nodes ==>
        n.position == if n.selected then Translate(old(n.position), delta) else old(n.position)
      ensures forall n :: n in nodes ==>
        n.selected == old(n.selected) && n.parents == old(n.parents) && n.children == old(n.children)
    {
      for i := 0 to |nodes|
        invariant forall j :: 0 <= j < i ==>
          nodes[j].position == if nodes[j].selected then Translate(old(nodes[j].position), delta) else old(nodes[j].position)
        invariant forall j :: i <= j < |nodes| ==> nodes[j].position == old(nodes[j].position)
        invariant forall n :: n in nodes ==>
          n.selected == old(n.selected) && n.parents == old(n.parents) && n.children == old(n.children)
      {
        var node := nodes[i];
        if node.selected {
          node.position := Translate(node.position, delta);
        }
      }
    }

    /** Replaces the selection: a node is selected exactly when its position
        lies in the box spanned by the two corners. */
    method SelectInRect(c1: Point, c2: Point)
      modifies nodes
      ensures forall n :: n in nodes ==> n.selected == InRect(n.position, c1, c2)
      ensures forall n :: n in nodes ==>
        n.position == old(n.position) && n.parents == old(n.parents) && n.children == old(n.children)
    {
      var tleft, bright := TopLeft(c1, c2), BottomRight(c1, c2);
      for i := 0 to |nodes|
        invariant forall j :: 0 <= j < i ==> nodes[j].selected == InRect(nodes[j].position, c1, c2)
        invariant forall n :: n in nodes ==>
          n.position == old(n.position) && n.parents == old(n.parents) && n.children == old(n.children)
      {
        var pos := nodes[i].position;
        if pos.x >= tleft.x && pos.x <= bright.x && pos.y >= tleft.y && pos.y <= bright.y {
          nodes[i].selected := true;
        } else {
          nodes[i].selected := false;
        }
      }
    }

    /** The edge pass of draw_graph: the strokes it draws, in order, are those
        of Pass over the graph's (parent, child) pairs. */
    method DrawGraphEdges() returns (strokes: seq<Stroke<VizGraphNode>>)
      ensures strokes == Pass(VisitOrder(Snapshot(nodes))).strokes
    {
      strokes := [];
      var edgePairs: set<Edge<VizGraphNode>> := {};
      ghost var adj := Snapshot(nodes);
      assert |adj| == |nodes|;
      ghost var done: seq<Edge<VizGraphNode>> := [];
      for i := 0 to |nodes|
        invariant done == VisitOrder(adj[..i])
        invariant PassState(strokes, edgePairs) == Pass(done)
      {
        var node := nodes[i];
        var children := node.children;
        strokes, edgePairs := VisitChildren(node, children, strokes, edgePairs, done);
        done := done + ChildPairs(node, children);
        assert adj[i] == (node, children);
        VisitOrderSnoc(adj, i);
      }
      assert adj[..|adj|] == adj;
    }
  }
}
