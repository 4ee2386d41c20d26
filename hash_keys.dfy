/** The edge pass of draw_graph as written, with `hash()` keys: a node's key
    is the decimal text of its x followed by that of its y, and an edge's key
    is `parent.hash() + '->' + child.hash()`. Distinct positions can share a
    key, and then the pass can leave an edge without a line. Nodes are named
    by their index in `positions`; only whole non-negative coordinates, whose
    `toString` is plain decimal, are modelled. */
module HashKeys {
  import opened Geometry
  import opened Edges

  function Digit(d: nat): char
    requires d < 10
  {
    "0123456789"[d]
  }

  /** `toString` of a natural number. */
  function DecimalString(n: nat): string {
    if n < 10 then [Digit(n)] else DecimalString(n / 10) + [Digit(n % 10)]
  }

  predicate Whole(v: real) {
    0.0 <= v && v.Floor as real == v
  }

  /** `position.x.toString() + position.y.toString()`. */
  function Hash(p: Point): string
    requires Whole(p.x) && Whole(p.y)
  {
    DecimalString(p.x.Floor) + DecimalString(p.y.Floor)
  }

  predicate Hashable(positions: seq<Point>, pairs: seq<Edge<nat>>) {
    && (forall p :: p in positions ==> Whole(p.x) && Whole(p.y))
    && (forall e :: e in pairs ==> e.0 < |positions| && e.1 < |positions|)
  }

  function Key(positions: seq<Point>, parent: nat, child: nat): string
    requires forall p :: p in positions ==> Whole(p.x) && Whole(p.y)
    requires parent < |positions| && child < |positions|
  {
    Hash(positions[parent]) + "->" + Hash(positions[child])
  }

  datatype HashedState = HashedState(strokes: seq<Stroke<nat>>, recorded: set<string>)

  /** The pass as written: the reverse test and the record both use keys. */
  function HashedPass(positions: seq<Point>, pairs: seq<Edge<nat>>): HashedState
    requires Hashable(positions, pairs)
  {
    if pairs == [] then HashedState([], {})
    else
      var init, e := pairs[..|pairs| - 1], pairs[|pairs| - 1];
      assert forall x :: x in init ==> x in pairs;
      var s := HashedPass(positions, init);
      if Key(positions, e.1, e.0) !in s.recorded then
        HashedState(s.strokes + [Line(e), Arrow(e)], s.recorded + {Key(positions, e.0, e.1)})
      else
        HashedState(s.strokes + [Arrow(e)], s.recorded)
  }

  /** (1, 23) and (12, 3) get the same key "123". */
  lemma HashCollides()
    ensures Hash(Point(1.0, 23.0)) == Hash(Point(12.0, 3.0)) == "123"
  {
    assert DecimalString(23) == DecimalString(2) + [Digit(3)];
    assert DecimalString(12) == DecimalString(1) + [Digit(2)];
  }

  /** Nodes 0 at (1, 23), 1 at (12, 3) and 2 at (5, 5), with edges 0->2 and 2->1. */
  const ExamplePositions: seq<Point> := [Point(1.0, 23.0), Point(12.0, 3.0), Point(5.0, 5.0)]
  const ExamplePairs: seq<Edge<nat>> := [(0, 2), (2, 1)]

  lemma ExampleKeys()
    ensures Hashable(ExamplePositions, ExamplePairs)
    ensures Key(ExamplePositions, 0, 2) == Key(ExamplePositions, 1, 2) == "123->55"
  {
    HashCollides();
    assert DecimalString(5) == "5";
    assert Hash(ExamplePositions[2]) == "55";
  }

  lemma ExampleHashedPass()
    ensures Hashable(ExamplePositions, ExamplePairs)
    ensures HashedPass(ExamplePositions, ExamplePairs).strokes
            == [Line((0, 2)), Arrow((0, 2)), Arrow((2, 1))]
  {
    ExampleKeys();
    var first := HashedPass(ExamplePositions, [(0, 2)]);
    assert [(0, 2)][..0] == [];
    assert first == HashedState([Line((0, 2)), Arrow((0, 2))], {"123->55"});
    assert ExamplePairs[..1] == [(0, 2)];
  }

  lemma LinesSnoc(s: seq<Stroke<nat>>, x: Stroke<nat>)
    ensures Lines(s + [x]) == Lines(s) + (if x.Line? then [x.edge] else [])
  {
    assert (s + [x])[..|s|] == s;
  }

  lemma LinesOfExample()
    ensures Lines<nat>([Line((0, 2)), Arrow((0, 2)), Arrow((2, 1))]) == [(0, 2)]
  {
    var s0: seq<Stroke<nat>> := [];
    LinesSnoc(s0, Line((0, 2)));
    assert s0 + [Line((0, 2))] == [Line((0, 2))];
    LinesSnoc([Line((0, 2))], Arrow((0, 2)));
    LinesSnoc([Line((0, 2)), Arrow((0, 2))], Arrow((2, 1)));
    assert [Line((0, 2)), Arrow((0, 2))] + [Arrow((2, 1))]
           == [Line((0, 2)), Arrow((0, 2)), Arrow((2, 1))];
  }

  /** Keyed by node identity, both edges of the example get their line. */
  lemma ExamplePass()
    ensures Lines(Pass(ExamplePairs).strokes) == [(0, 2), (2, 1)]
  {
    var empty: seq<Edge<nat>> := [];
    var one: seq<Edge<nat>> := [(0, 2)];
    assert Pass(empty) == PassState([], {});
    PassSnoc(empty, (0, 2));
    assert empty + [(0, 2)] == one;
    StepStrokes(Pass(empty), (0, 2));
    var first := Pass(one);
    assert Lines(first.strokes) == [(0, 2)];
    assert first.recorded == {(0, 2)};
    assert ExamplePairs == one + [(2, 1)];
    PassSnoc(one, (2, 1));
    StepStrokes(first, (2, 1));
  }

  /** As written, the key recorded for 0->2, "123->55", is also the reverse
      key of 2->1, so the segment between 2 and 1 gets no line in either
      direction, while keyed by node identity both edges get their line. */
  lemma HashedPassDropsEdge()
    ensures Hashable(ExamplePositions, ExamplePairs)
    ensures Lines(HashedPass(ExamplePositions, ExamplePairs).strokes) == [(0, 2)]
    ensures Lines(Pass(ExamplePairs).strokes) == [(0, 2), (2, 1)]
  {
    ExampleHashedPass();
    LinesOfExample();
    ExamplePass();
  }
}
