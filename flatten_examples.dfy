/**
 * The flattener's unit tests, as lemmas over the example forest
 * a, b(c, d(e, f), g), h.
 */
module FlattenExamples {
  import opened Identifier
  import opened Tree
  import opened Flattener

  function Leaf(text: string): Node
  {
    Node([text], [])
  }

  function ExampleForest(): seq<Node>
  {
    [ Leaf("a"),
      Node(["b"], [Leaf("c"), Node(["d"], [Leaf("e"), Leaf("f")]), Leaf("g")]),
      Leaf("h") ]
  }

  /** The first text line of an entry's item. */
  function Label(e: Flattened): string
  {
    if e.item.lines == [] then "" else e.item.lines[0]
  }

  /** The labels of a list of entries, in order. */
  function Labels(v: seq<Flattened>): (r: seq<string>)
    ensures |r| == |v| && forall i :: 0 <= i < |v| ==> r[i] == Label(v[i])
  {
    seq(|v|, i requires 0 <= i < |v| => Label(v[i]))
  }

  function B(): Node
  {
    ExampleForest()[1]
  }

  function D(): Node
  {
    B().children[1]
  }

  /** The walk over the roots, unfolded one root at a time. */
  lemma RootWalk(openSet: set<Id>)
    ensures Flatten(openSet, ExampleForest()) ==
            [Flattened([0], Leaf("a"))] + (if [0] in openSet then Internal(openSet, [], [0]) else []) +
            [Flattened([1], B())] + (if [1] in openSet then Internal(openSet, B().children, [1]) else []) +
            [Flattened([2], Leaf("h"))] + (if [2] in openSet then Internal(openSet, [], [2]) else [])
  {
    var f := ExampleForest();
    assert ChildIdentifier([], 0) == [0] && ChildIdentifier([], 1) == [1] && ChildIdentifier([], 2) == [2];
    assert Walk(openSet, f, [], 1) == [Flattened([0], Leaf("a"))] + (if [0] in openSet then Internal(openSet, [], [0]) else []);
    assert Walk(openSet, f, [], 2) == Walk(openSet, f, [], 1) +
           [Flattened([1], B())] + (if [1] in openSet then Internal(openSet, B().children, [1]) else []);
  }

  /** The walk over the children of `b`, with `d` opened or not. */
  lemma BWalk(openSet: set<Id>)
    ensures Internal(openSet, B().children, [1]) ==
            [Flattened([1, 0], Leaf("c"))] + (if [1, 0] in openSet then Internal(openSet, [], [1, 0]) else []) +
            [Flattened([1, 1], D())] + (if [1, 1] in openSet then Internal(openSet, D().children, [1, 1]) else []) +
            [Flattened([1, 2], Leaf("g"))] + (if [1, 2] in openSet then Internal(openSet, [], [1, 2]) else [])
  {
    var ch := B().children;
    assert ChildIdentifier([1], 0) == [1, 0] && ChildIdentifier([1], 1) == [1, 1] && ChildIdentifier([1], 2) == [1, 2];
    assert Walk(openSet, ch, [1], 1) == [Flattened([1, 0], Leaf("c"))] + (if [1, 0] in openSet then Internal(openSet, [], [1, 0]) else []);
  }

  lemma DWalk(openSet: set<Id>)
    ensures Internal(openSet, D().children, [1, 1]) ==
            [Flattened([1, 1, 0], Leaf("e"))] + (if [1, 1, 0] in openSet then Internal(openSet, [], [1, 1, 0]) else []) +
            [Flattened([1, 1, 1], Leaf("f"))] + (if [1, 1, 1] in openSet then Internal(openSet, [], [1, 1, 1]) else [])
  {
    var ch := D().children;
    assert ChildIdentifier([1, 1], 0) == [1, 1, 0] && ChildIdentifier([1, 1], 1) == [1, 1, 1];
    assert Walk(openSet, ch, [1, 1], 1) == [Flattened([1, 1, 0], Leaf("e"))] + (if [1, 1, 0] in openSet then Internal(openSet, [], [1, 1, 0]) else []);
  }

  lemma NothingOpenedIsTopLevel()
    ensures Labels(Flatten({}, ExampleForest())) == ["a", "b", "h"]
  {
    RootWalk({});
  }

  lemma WrongOpenedIsOnlyTopLevel()
    ensures Labels(Flatten({[0], [1, 1]}, ExampleForest())) == ["a", "b", "h"]
  {
    RootWalk({[0], [1, 1]});
    assert Internal({[0], [1, 1]}, [], [0]) == [];
  }

  lemma OneIsOpened()
    ensures Labels(Flatten({[1]}, ExampleForest())) == ["a", "b", "c", "d", "g", "h"]
  {
    RootWalk({[1]});
    BWalk({[1]});
  }

  lemma BothOpenedUnderB()
    ensures Internal({[1], [1, 1]}, B().children, [1]) ==
            [Flattened([1, 0], Leaf("c")), Flattened([1, 1], D()), Flattened([1, 1, 0], Leaf("e")),
             Flattened([1, 1, 1], Leaf("f")), Flattened([1, 2], Leaf("g"))]
  {
    var o: set<Id> := {[1], [1, 1]};
    BWalk(o);
    DWalk(o);
    assert Internal(o, [], [1, 0]) == [] && Internal(o, [], [1, 2]) == [];
    assert Internal(o, [], [1, 1, 0]) == [] && Internal(o, [], [1, 1, 1]) == [];
  }

  function AllEntries(): seq<Flattened>
  {
    [Flattened([0], Leaf("a")), Flattened([1], B()), Flattened([1, 0], Leaf("c")), Flattened([1, 1], D()),
     Flattened([1, 1, 0], Leaf("e")), Flattened([1, 1, 1], Leaf("f")), Flattened([1, 2], Leaf("g")),
     Flattened([2], Leaf("h"))]
  }

  lemma AllOpenedEntries()
    ensures Flatten({[1], [1, 1]}, ExampleForest()) == AllEntries()
  {
    var o: set<Id> := {[1], [1, 1]};
    RootWalk(o);
    BothOpenedUnderB();
    assert [0] !in o && [2] !in o;
  }

  lemma AllOpened()
    ensures Labels(Flatten({[1], [1, 1]}, ExampleForest())) == ["a", "b", "c", "d", "e", "f", "g", "h"]
  {
    AllOpenedEntries();
    var v := AllEntries();
    assert Labels(v) == ["a", "b", "c", "d", "e", "f", "g", "h"];
  }
}
