/** The node graph of GraphController.js: GraphAudioNode objects held in the
    ordered `nodes` array of a Graph, and the GraphController operations that
    hit-test, select, move and draw them. Node identity is object identity. */
module Controller {
  import opened Geometry
  import opened Edges

  /** A graph vertex as created by create_node (a GraphSynthNode): its
      position, its outgoing edges, and its selection and animation flags. */
  class GraphAudioNode {
    var children: seq<GraphAudioNode>
    var position: Point
    var selected: bool
    var playingAnimation: bool

    /** No node is a child twice. */
    ghost predicate Valid()
      reads this
    {
      Distinct(children)
    }

    constructor (position: Point)
      ensures this.position == position && children == []
      ensures !selected && !playingAnimation
    {
      this.position := position;
      children := [];
      selected := false;
      playingAnimation := false;
    }

    /** `children.includes(node)`: membership by object identity. */
    predicate HasChild(node: GraphAudioNode)
      reads this
      ensures HasChild(node) <==> exists i :: 0 <= i < |children| && children[i] == node
    {
      node in children
    }

    /** Appends `node` unless it already is a child; in that case the source
        only logs "Child Already Exists", reported here as `alreadyChild`. */
    method AddEdge(node: GraphAudioNode) returns (alreadyChild: bool)
      modifies this`children
      ensures alreadyChild == old(HasChild(node))
      ensures children == if alreadyChild then old(children) else old(children) + [node]
      ensures HasChild(node)
      ensures old(Valid()) ==> Valid()
    {
      alreadyChild := HasChild(node);
      if !alreadyChild {
        if Valid() {
          DistinctSnoc(children, node);
        }
        children := children + [node];
      }
    }

    /** The coordinate is within `radius` of the node's centre: a hit needs
        a non-negative radius and lies in the square of side `2 * radius`
        around the centre, and the centre itself always hits. */
    predicate IsHovering(coord: Point, radius: real)
      reads this
      ensures IsHovering(coord, radius) ==>
        0.0 <= radius
        && position.x - radius <= coord.x <= position.x + radius
        && position.y - radius <= coord.y <= position.y + radius
      ensures 0.0 <= radius && coord == position ==> IsHovering(coord, radius)
    {
      WithinRadiusBounds(position, coord, radius);
      WithinRadius(position, coord, radius)
    }

    method Select()
      modifies this`selected
      ensures selected
    {
      selected := true;
    }

    /** Flips the flag, so that two calls restore it. */
    method ToggleSelected()
      modifies this`selected
      ensures selected == !old(selected)
    {
      selected := !selected;
    }
  }

  /** The ordered node list. */
  class Graph {
    var nodes: seq<GraphAudioNode>

    /** Each node object occurs once (create_node always pushes a new one)
        and holds no duplicate child. */
    ghost predicate Valid()
      reads this, nodes
    {
      Distinct(nodes) && forall n :: n in nodes ==> n.Valid()
    }

    constructor ()
      ensures nodes == [] && Valid()
    {
      nodes := [];
    }

    /** Appends one new unselected, non-playing node with no children; the
        earlier nodes and their order are kept. */
    method CreateNode(coord: Point)
      modifies this`nodes
      ensures |nodes| == |old(nodes)| + 1 && nodes[..|old(nodes)|] == old(nodes)
      ensures fresh(nodes[|old(nodes)|])
      ensures nodes[|old(nodes)|].position == coord && nodes[|old(nodes)|].children == []
      ensures !nodes[|old(nodes)|].selected && !nodes[|old(nodes)|].playingAnimation
      ensures old(Valid()) ==> Valid()
    {
      var node := new GraphAudioNode(coord);
      if Valid() {
        DistinctSnoc(nodes, node);
      }
      nodes := nodes + [node];
      assert nodes[..|old(nodes)|] == old(nodes);
    }

    /** Resets every node's `selected` flag and nothing else. */
    method ClearSelections()
      modifies nodes
      ensures forall n :: n in nodes ==> !n.selected
      ensures forall n :: n in nodes ==>
        n.position == old(n.position) && n.children == old(n.children)
        && n.playingAnimation == old(n.playingAnimation)
    {
      for i := 0 to |nodes|
        invariant forall j :: 0 <= j < i ==> !nodes[j].selected
        invariant forall n :: n in nodes ==>
          n.position == old(n.position) && n.children == old(n.children)
          && n.playingAnimation == old(n.playingAnimation)
      {
        nodes[i].selected := false;
      }
    }
  }

  /** A node counts for hovering when it is not the ignored one and the
      coordinate lies within `radius` of its centre. */
  predicate Hits(node: GraphAudioNode, coord: Point, radius: real, ignore: GraphAudioNode?)
    reads node
  {
    node != ignore && node.IsHovering(coord, radius)
  }

  /** The adjacency lists of `ns` as they are now. */
  ghost function Snapshot(ns: seq<GraphAudioNode>): (adj: Adjacency<GraphAudioNode>)
    reads ns
    ensures Vertices(adj) == ns
    ensures forall k :: 0 <= k < |ns| ==> adj[k].1 == ns[k].children
  {
    seq(|ns|, k requires 0 <= k < |ns| reads ns => (ns[k], ns[k].children))
  }

  /** A valid graph is a well-formed snapshot, so draw_graph draws each
      segment once: no line twice and never both directions of two
      opposite edges. */
  lemma EachSegmentDrawnOnce(g: Graph)
    requires g.Valid()
    ensures WellFormed(Snapshot(g.nodes))
    ensures Distinct(Lines(Pass(VisitOrder(Snapshot(g.nodes))).strokes))
    ensures forall e :: (e in Lines(Pass(VisitOrder(Snapshot(g.nodes))).strokes)
      && Reverse(e) in Lines(Pass(VisitOrder(Snapshot(g.nodes))).strokes)) ==> e.0 == e.1
  {
    var adj := Snapshot(g.nodes);
    forall k | 0 <= k < |adj| ensures Distinct(adj[k].1) {
      assert g.nodes[k] in g.nodes && g.nodes[k].Valid();
    }
    DrawsEachSegmentOnce(adj);
  }

  /** The controller: the graph plus the canvas work, of which only the
      decisions are modelled. */
  class GraphController {
    var graph: Graph

    constructor ()
      ensures fresh(graph) && graph.nodes == []
    {
      graph := new Graph();
    }

    /** The first node in `nodes` order, other than `ignore`, within
        `specs.radius * scale` of `coord`; null when there is none. */
    method Hovering(coord: Point, scale: real, ignore: GraphAudioNode?) returns (r: GraphAudioNode?)
      ensures r == null <==> forall k :: 0 <= k < |graph.nodes| ==> !Hits(graph.nodes[k], coord, Radius * scale, ignore)
      ensures r != null ==> exists k :: (0 <= k < |graph.nodes| && graph.nodes[k] == r
        && Hits(r, coord, Radius * scale, ignore)
        && forall j :: 0 <= j < k ==> !Hits(graph.nodes[j], coord, Radius * scale, ignore))
    {
      var ns := graph.nodes;
      for i := 0 to |ns|
        invariant forall j :: 0 <= j < i ==> !Hits(ns[j], coord, Radius * scale, ignore)
      {
        var node := ns[i];
        if node == ignore {
          continue;
        }
        if node.IsHovering(coord, Radius * scale) {
          assert Hits(ns[i], coord, Radius * scale, ignore);
          return node;
        }
      }
      return null;
    }

    /** Translates exactly the selected nodes by `delta`. */
    method MoveSelected(delta: Point)
      requires Distinct(graph.nodes)
      modifies graph.nodes
      ensures forall n :: n in graph.nodes ==>
        n.position == if n.selected then Translate(old(n.position), delta) else old(n.position)
      ensures forall n :: n in graph.nodes ==>
        n.selected == old(n.selected) && n.children == old(n.children)
        && n.playingAnimation == old(n.playingAnimation)
    {
      var ns := graph.nodes;
      for i := 0 to |ns|
        invariant forall j :: 0 <= j < i ==>
          ns[j].position == if ns[j].selected then Translate(old(ns[j].position), delta) else old(ns[j].position)
        invariant forall j :: i <= j < |ns| ==> ns[j].position == old(ns[j].position)
        invariant forall n :: n in ns ==>
          n.selected == old(n.selected) && n.children == old(n.children)
          && n.playingAnimation == old(n.playingAnimation)
      {
        var node := ns[i];
        if node.selected {
          node.position := Translate(node.position, delta);
        }
      }
    }

    /** Replaces the selection: a node is selected exactly when its position
        lies in the box spanned by the two corners. */
    method SelectInRect(c1: Point, c2: Point)
      modifies graph.nodes
      ensures forall n :: n in graph.nodes ==> n.selected == InRect(n.position, c1, c2)
      ensures forall n :: n in graph.nodes ==>
        n.position == old(n.position) && n.children == old(n.children)
        && n.playingAnimation == old(n.playingAnimation)
    {
      var ns := graph.nodes;
      var tleft, bright := TopLeft(c1, c2), BottomRight(c1, c2);
      for i := 0 to |ns|
        invariant forall j :: 0 <= j < i ==> ns[j].selected == InRect(ns[j].position, c1, c2)
        invariant forall n :: n in ns ==>
          n.position == old(n.position) && n.children == old(n.children)
          && n.playingAnimation == old(n.playingAnimation)
      {
        var pos := ns[i].position;
        if pos.x >= tleft.x && pos.x <= bright.x && pos.y >= tleft.y && pos.y <= bright.y {
          ns[i].selected := true;
        } else {
          ns[i].selected := false;
        }
      }
    }

    /** The edge pass of draw_graph: the strokes it draws, in order, are those
        of Pass over the graph's (parent, child) pairs. */
    method DrawGraphEdges() returns (strokes: seq<Stroke<GraphAudioNode>>)
      ensures strokes == Pass(VisitOrder(Snapshot(graph.nodes))).strokes
    {
      var ns := graph.nodes;
      strokes := [];
      var edgePairs: set<Edge<GraphAudioNode>> := {};
      ghost var adj := Snapshot(ns);
      assert |adj| == |ns|;
      ghost var done: seq<Edge<GraphAudioNode>> := [];
      for i := 0 to |ns|
        invariant done == VisitOrder(adj[..i])
        invariant PassState(strokes, edgePairs) == Pass(done)
      {
        var node := ns[i];
        var children := node.children;
        strokes, edgePairs := VisitChildren(node, children, strokes, edgePairs, done);
        done := done + ChildPairs(node, children);
        assert adj[i] == (node, children);
        VisitOrderSnoc(adj, i);
      }
      assert adj[..|adj|] == adj;
    }
  }
}
