/**
 * Tree identifiers: the path of child indices from the roots to a node.
 * `[1, 2, 0]` is the first child of the third child of the second root;
 * the empty identifier means "nothing selected".
 */
module Identifier {
  import opened Wrappers

  type Id = seq<nat>

  /** The identifier of the `index`-th child of the node at `parent`. */
  function ChildIdentifier(parent: Id, index: nat): (r: Id)
    ensures |r| == |parent| + 1 && r[..|parent|] == parent && r[|parent|] == index
  {
    parent + [index]
  }

  /**
   * `get_without_leaf`: splits an identifier into its parent and its last
   * index. The empty identifier has no leaf and its parent is empty.
   */
  function GetWithoutLeaf(id: Id): (r: (Id, Option<nat>))
    ensures r.1.None? <==> id == []
    ensures id == [] ==> r.0 == []
    ensures r.1.Some? ==> ChildIdentifier(r.0, r.1.value) == id
  {
    if id == [] then ([], None) else (id[..|id| - 1], Some(id[|id| - 1]))
  }

  lemma WithoutLeafOfChild(parent: Id, index: nat)
    ensures GetWithoutLeaf(ChildIdentifier(parent, index)) == (parent, Some(index))
  {
    var c := ChildIdentifier(parent, index);
    assert c[..|c| - 1] == parent;
  }

  /**
   * The order in which a pre-order walk meets identifiers: lexicographic,
   * with a proper prefix (an ancestor) before its extensions (descendants).
   */
  predicate Precedes(a: Id, b: Id)
    decreases |a|
  {
    if a == [] then b != []
    else b != [] && (a[0] < b[0] || (a[0] == b[0] && Precedes(a[1..], b[1..])))
  }

  lemma {:induction false} PrecedesIrreflexive(a: Id)
    ensures !Precedes(a, a)
    decreases |a|
  {
    if a != [] {
      PrecedesIrreflexive(a[1..]);
    }
  }

  lemma {:induction false} PrecedesAsymmetric(a: Id, b: Id)
    requires Precedes(a, b)
    ensures !Precedes(b, a)
    decreases |a|
  {
    if a != [] && b != [] && a[0] == b[0] {
      PrecedesAsymmetric(a[1..], b[1..]);
    }
  }

  /** Identifiers under a common prefix are ordered as their remainders are. */
  lemma {:induction false} PrecedesCommonPrefix(c: Id, x: Id, y: Id)
    ensures Precedes(c + x, c + y) == Precedes(x, y)
    decreases |c|
  {
    if c != [] {
      assert (c + x)[1..] == c[1..] + x;
      assert (c + y)[1..] == c[1..] + y;
      PrecedesCommonPrefix(c[1..], x, y);
    } else {
      assert c + x == x && c + y == y;
    }
  }

  /** An ancestor precedes each of its descendants. */
  lemma AncestorPrecedes(a: Id, rest: Id)
    requires rest != []
    ensures Precedes(a, a + rest)
  {
    PrecedesCommonPrefix(a, [], rest);
    assert a + [] == a;
  }

  /** Everything under the `i`-th sibling precedes everything under a later one. */
  lemma SiblingsPrecede(c: Id, i: nat, j: nat, x: Id, y: Id)
    requires i < j
    ensures Precedes(c + [i] + x, c + [j] + y)
  {
    assert c + [i] + x == c + ([i] + x);
    assert c + [j] + y == c + ([j] + y);
    PrecedesCommonPrefix(c, [i] + x, [j] + y);
  }

  /** No identifier lies strictly between a node and its first child. */
  lemma {:induction false} NothingBeforeFirstChild(a: Id, x: Id)
    ensures !(Precedes(a, x) && Precedes(x, a + [0]))
    decreases |a|
  {
    if a != [] && x != [] && a[0] == x[0] {
      assert (a + [0])[1..] == a[1..] + [0];
      NothingBeforeFirstChild(a[1..], x[1..]);
    }
  }
}
