/** The edge pass of draw_graph, independent of how nodes are represented.
    Every (parent, child) pair is visited in graph order; a line is drawn for
    it unless the reverse pair's line was already drawn, the pair is then
    recorded in `edge_pairs`, and an arrowhead is drawn for every pair. Keys
    are node identities, so `T` is the node type. */
module Edges {

  /** A directed (parent, child) pair. */
  type Edge<T> = (T, T)

  function Reverse<T>(e: Edge<T>): Edge<T> {
    (e.1, e.0)
  }

  /** One drawing decision of the pass: the shrunk edge segment or the arrowhead. */
  datatype Stroke<T> = Line(edge: Edge<T>) | Arrow(edge: Edge<T>)

  /** The strokes emitted so far and the keys recorded in `edge_pairs`. */
  datatype PassState<T(==)> = PassState(strokes: seq<Stroke<T>>, recorded: set<Edge<T>>)

  /** No element occurs twice. */
  predicate Distinct<T(==)>(s: seq<T>) {
    forall i, j :: 0 <= i < j < |s| ==> s[i] != s[j]
  }

  /** The pairs of one parent, in `children` order. */
  function ChildPairs<T>(parent: T, children: seq<T>): (pairs: seq<Edge<T>>)
    ensures |pairs| == |children|
    ensures forall k :: 0 <= k < |children| ==> pairs[k] == (parent, children[k])
  {
    seq(|children|, k requires 0 <= k < |children| => (parent, children[k]))
  }

  lemma ChildPairsSnoc<T>(parent: T, children: seq<T>, k: nat)
    requires k < |children|
    ensures ChildPairs(parent, children[..k + 1]) == ChildPairs(parent, children[..k]) + [(parent, children[k])]
  {
  }

  /** A snapshot of a graph's adjacency lists: each node with its
      `children`, in `nodes` order. */
  type Adjacency<T> = seq<(T, seq<T>)>

  /** The nodes of a snapshot, in order. */
  function Vertices<T>(adj: Adjacency<T>): (vs: seq<T>)
    ensures |vs| == |adj|
    ensures forall k :: 0 <= k < |adj| ==> vs[k] == adj[k].0
  {
    seq(|adj|, k requires 0 <= k < |adj| => adj[k].0)
  }

  /** The (parent, child) pairs in the order the nested loops of draw_graph
      visit them: nodes in order, each node's children in order. */
  function VisitOrder<T>(adj: Adjacency<T>): seq<Edge<T>> {
    if adj == [] then []
    else VisitOrder(adj[..|adj| - 1]) + ChildPairs(adj[|adj| - 1].0, adj[|adj| - 1].1)
  }

  lemma VisitOrderSnoc<T>(adj: Adjacency<T>, i: nat)
    requires i < |adj|
    ensures VisitOrder(adj[..i + 1]) == VisitOrder(adj[..i]) + ChildPairs(adj[i].0, adj[i].1)
  {
    assert adj[..i + 1][..i] == adj[..i];
  }

  /** Every visited pair starts at a node of the snapshot. */
  lemma {:induction false} VisitOrderFrom<T>(adj: Adjacency<T>)
    ensures forall e :: e in VisitOrder(adj) ==> e.0 in Vertices(adj)
  {
    if adj != [] {
      var init := adj[..|adj| - 1];
      VisitOrderFrom(init);
      assert forall k :: 0 <= k < |init| ==> Vertices(init)[k] == Vertices(adj)[k];
    }
  }

  /** No node occurs twice and no node lists a child twice. */
  predicate WellFormed<T(==)>(adj: Adjacency<T>) {
    Distinct(Vertices(adj)) && forall k :: 0 <= k < |adj| ==> Distinct(adj[k].1)
  }

  /** In a well-formed snapshot the nested loops visit no pair twice. */
  lemma {:induction false} VisitOrderDistinct<T>(adj: Adjacency<T>)
    requires WellFormed(adj)
    ensures Distinct(VisitOrder(adj))
  {
    if adj != [] {
      var init, last := adj[..|adj| - 1], adj[|adj| - 1];
      var vs := Vertices(adj);
      assert forall k :: 0 <= k < |init| ==> Vertices(init)[k] == vs[k];
      assert WellFormed(init);
      VisitOrderDistinct(init);
      VisitOrderFrom(init);
      assert last.0 !in Vertices(init) by {
        assert forall k :: 0 <= k < |init| ==> Vertices(init)[k] != vs[|adj| - 1];
      }
      var a, b := VisitOrder(init), ChildPairs(last.0, last.1);
      assert Distinct(last.1);
      forall i, j | 0 <= i < j < |a + b| ensures (a + b)[i] != (a + b)[j] {
        if i >= |a| {
          assert (a + b)[i] == b[i - |a|] && (a + b)[j] == b[j - |a|];
        } else if j >= |a| {
          assert (a + b)[i] in a && (a + b)[j].0 == last.0;
        }
      }
    }
  }

  /** The body of the inner loop for one pair. */
  function Step<T(==)>(s: PassState<T>, e: Edge<T>): PassState<T> {
    if Reverse(e) !in s.recorded then
      PassState(s.strokes + [Line(e), Arrow(e)], s.recorded + {e})
    else
      PassState(s.strokes + [Arrow(e)], s.recorded)
  }

  /** The state after visiting `pairs` in order, starting from an empty `edge_pairs`. */
  function Pass<T(==)>(pairs: seq<Edge<T>>): PassState<T> {
    if pairs == [] then PassState([], {})
    else Step(Pass(pairs[..|pairs| - 1]), pairs[|pairs| - 1])
  }

  /** The pairs that get a line, in drawing order. */
  function Lines<T>(strokes: seq<Stroke<T>>): seq<Edge<T>> {
    if strokes == [] then []
    else Lines(strokes[..|strokes| - 1])
         + (if strokes[|strokes| - 1].Line? then [strokes[|strokes| - 1].edge] else [])
  }

  /** The pairs that get an arrowhead, in drawing order. */
  function Arrows<T>(strokes: seq<Stroke<T>>): seq<Edge<T>> {
    if strokes == [] then []
    else Arrows(strokes[..|strokes| - 1])
         + (if strokes[|strokes| - 1].Arrow? then [strokes[|strokes| - 1].edge] else [])
  }

  /** Reference definition, without any recorded state: the pairs whose
      reverse does not occur earlier in the visiting order. */
  function FirstDirections<T(==)>(pairs: seq<Edge<T>>): seq<Edge<T>> {
    if pairs == [] then []
    else
      var init, e := pairs[..|pairs| - 1], pairs[|pairs| - 1];
      FirstDirections(init) + (if Reverse(e) in init then [] else [e])
  }

  lemma PassSnoc<T>(pairs: seq<Edge<T>>, e: Edge<T>)
    ensures Pass(pairs + [e]) == Step(Pass(pairs), e)
  {
    assert (pairs + [e])[..|pairs|] == pairs;
  }

  /** What one step adds to the lines and to the arrowheads. */
  lemma StepStrokes<T>(s: PassState<T>, e: Edge<T>)
    ensures Arrows(Step(s, e).strokes) == Arrows(s.strokes) + [e]
    ensures Lines(Step(s, e).strokes)
            == Lines(s.strokes) + (if Reverse(e) !in s.recorded then [e] else [])
  {
    var t := Step(s, e).strokes;
    if Reverse(e) !in s.recorded {
      assert t[..|t| - 1] == s.strokes + [Line(e)];
      assert (s.strokes + [Line(e)])[..|s.strokes|] == s.strokes;
    } else {
      assert t[..|t| - 1] == s.strokes;
    }
  }

  /** One arrowhead per pair, in visiting order, whatever the lines do. */
  lemma {:induction false} PassArrows<T>(pairs: seq<Edge<T>>)
    ensures Arrows(Pass(pairs).strokes) == pairs
  {
    if pairs != [] {
      var init, e := pairs[..|pairs| - 1], pairs[|pairs| - 1];
      PassArrows(init);
      StepStrokes(Pass(init), e);
      assert init + [e] == pairs;
    }
  }

  /** `edge_pairs` holds exactly the pairs whose line was drawn. */
  lemma {:induction false} PassRecordsLines<T>(pairs: seq<Edge<T>>)
    ensures forall e :: e in Pass(pairs).recorded <==> e in Lines(Pass(pairs).strokes)
  {
    if pairs != [] {
      var init, e := pairs[..|pairs| - 1], pairs[|pairs| - 1];
      PassRecordsLines(init);
      StepStrokes(Pass(init), e);
    }
  }

  /** Only visited pairs are recorded, and a visited pair whose reverse is
      never visited is always recorded. */
  lemma {:induction false} PassRecordsUnopposed<T>(pairs: seq<Edge<T>>)
    ensures forall e :: e in Pass(pairs).recorded ==> e in pairs
    ensures forall e :: e in pairs && Reverse(e) !in pairs ==> e in Pass(pairs).recorded
  {
    if pairs != [] {
      var init, e := pairs[..|pairs| - 1], pairs[|pairs| - 1];
      PassRecordsUnopposed(init);
      assert pairs == init + [e];
    }
  }

  /** Every visited pair is covered by a line in one direction or the other. */
  lemma {:induction false} PassCoversEverySegment<T>(pairs: seq<Edge<T>>)
    ensures forall e :: e in pairs ==>
      e in Lines(Pass(pairs).strokes) || Reverse(e) in Lines(Pass(pairs).strokes)
  {
    if pairs != [] {
      var init, e := pairs[..|pairs| - 1], pairs[|pairs| - 1];
      PassCoversEverySegment(init);
      PassRecordsLines(init);
      StepStrokes(Pass(init), e);
      assert pairs == init + [e];
    }
  }

  /** With no pair visited twice (children hold no duplicates and nodes are
      distinct), a pair gets a line exactly when its reverse was not visited
      before it. */
  lemma {:induction false} PassLinesAreFirstDirections<T>(pairs: seq<Edge<T>>)
    requires Distinct(pairs)
    ensures Lines(Pass(pairs).strokes) == FirstDirections(pairs)
  {
    if pairs != [] {
      var init, e := pairs[..|pairs| - 1], pairs[|pairs| - 1];
      assert Distinct(init);
      PassLinesAreFirstDirections(init);
      PassRecordsUnopposed(init);
      StepStrokes(Pass(init), e);
      assert e !in init by {
        assert forall k :: 0 <= k < |init| ==> init[k] == pairs[k];
      }
      if Reverse(e) in init {
        assert Reverse(Reverse(e)) == e;
      }
    }
  }

  lemma DistinctSnoc<T>(s: seq<T>, x: T)
    requires Distinct(s) && x !in s
    ensures Distinct(s + [x])
  {
    var all := s + [x];
    forall i, j | 0 <= i < j < |all| ensures all[i] != all[j] {
      if j == |s| { assert all[i] == s[i]; }
    }
  }

  /** With no pair visited twice, no line is drawn twice. */
  lemma {:induction false} PassDrawsLineOnce<T>(pairs: seq<Edge<T>>)
    requires Distinct(pairs)
    ensures Distinct(Lines(Pass(pairs).strokes))
  {
    if pairs != [] {
      var init, e := pairs[..|pairs| - 1], pairs[|pairs| - 1];
      assert Distinct(init);
      PassDrawsLineOnce(init);
      PassRecordsLines(init);
      PassRecordsUnopposed(init);
      StepStrokes(Pass(init), e);
      assert e !in init by {
        assert forall k :: 0 <= k < |init| ==> init[k] == pairs[k];
      }
      if Reverse(e) !in Pass(init).recorded {
        DistinctSnoc(Lines(Pass(init).strokes), e);
      }
    }
  }

  /** No segment is drawn in both directions: a pair and its reverse never
      both get a line, unless the pair is a self-loop (its own reverse). */
  lemma {:induction false} PassNeverDrawsBothDirections<T>(pairs: seq<Edge<T>>)
    ensures forall e :: e in Pass(pairs).recorded && Reverse(e) in Pass(pairs).recorded ==> e == Reverse(e)
    ensures forall e ::
      (e in Lines(Pass(pairs).strokes) && Reverse(e) in Lines(Pass(pairs).strokes)) ==> e == Reverse(e)
  {
    if pairs != [] {
      var init, e := pairs[..|pairs| - 1], pairs[|pairs| - 1];
      PassNeverDrawsBothDirections(init);
      assert Pass(pairs) == Step(Pass(init), e);
    }
    PassRecordsLines(pairs);
    var lines := Lines(Pass(pairs).strokes);
    forall e | e in lines && Reverse(e) in lines ensures e == Reverse(e) {
      assert e in Pass(pairs).recorded && Reverse(e) in Pass(pairs).recorded;
    }
  }

  /** In a well-formed graph draw_graph draws each segment once: no line
      twice and never both directions of two opposite edges. */
  lemma DrawsEachSegmentOnce<T>(adj: Adjacency<T>)
    requires WellFormed(adj)
    ensures Distinct(Lines(Pass(VisitOrder(adj)).strokes))
    ensures forall e :: (e in Lines(Pass(VisitOrder(adj)).strokes)
      && Reverse(e) in Lines(Pass(VisitOrder(adj)).strokes)) ==> e.0 == e.1
  {
    VisitOrderDistinct(adj);
    PassDrawsLineOnce(VisitOrder(adj));
    PassNeverDrawsBothDirections(VisitOrder(adj));
  }

  /** The inner loop of draw_graph for one parent: each child pair is drawn
      and recorded as Step prescribes, continuing the pass over `done`. */
  method VisitChildren<T(==)>(parent: T, children: seq<T>, strokes0: seq<Stroke<T>>,
                              recorded0: set<Edge<T>>, ghost done: seq<Edge<T>>)
    returns (strokes: seq<Stroke<T>>, recorded: set<Edge<T>>)
    requires PassState(strokes0, recorded0) == Pass(done)
    ensures PassState(strokes, recorded) == Pass(done + ChildPairs(parent, children))
  {
    strokes, recorded := strokes0, recorded0;
    assert ChildPairs(parent, children[..0]) == [] && done + [] == done;
    for j := 0 to |children|
      invariant PassState(strokes, recorded) == Pass(done + ChildPairs(parent, children[..j]))
    {
      var child := children[j];
      ghost var before := PassState(strokes, recorded);
      if (child, parent) !in recorded {
        strokes := strokes + [Line((parent, child))];
        recorded := recorded + {(parent, child)};
      }
      strokes := strokes + [Arrow((parent, child))];
      assert PassState(strokes, recorded) == Step(before, (parent, child));
      ChildPairsSnoc(parent, children, j);
      assert done + ChildPairs(parent, children[..j + 1])
             == (done + ChildPairs(parent, children[..j])) + [(parent, child)];
      PassSnoc(done + ChildPairs(parent, children[..j]), (parent, child));
    }
    assert children[..|children|] == children;
  }
}
