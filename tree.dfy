/**
 * Tree items: a block of text lines and an ordered list of children.
 * Sharing through reference-counted cells is not modelled: nothing in the
 * modelled core mutates an item, so a node is a value.
 */
module Tree {
  import opened Wrappers
  import opened Identifier

  datatype Node = Node(lines: seq<string>, children: seq<Node>)

  /** The rendered height of an item: its number of text lines. */
  function Height(n: Node): nat
  {
    |n.lines|
  }

  /** The `index`-th child, if there is one. */
  function Child(n: Node, index: nat): (r: Option<Node>)
    ensures r.Some? <==> index < |n.children|
    ensures r.Some? ==> r.value == n.children[index]
  {
    if index < |n.children| then Some(n.children[index]) else None
  }

  /**
   * The node an identifier addresses, by repeated indexed child lookup from
   * the roots; `None` for the empty identifier and for a stale one.
   */
  function Address(roots: seq<Node>, id: Id): Option<Node>
    decreases |id|
  {
    if id == [] || id[0] >= |roots| then None
    else if |id| == 1 then Some(roots[id[0]])
    else Address(roots[id[0]].children, id[1..])
  }

  /** Addressing a child identifier is a child lookup on the parent's node. */
  lemma {:induction false} AddressChild(roots: seq<Node>, parent: Id, index: nat)
    requires parent != []
    ensures Address(roots, ChildIdentifier(parent, index)) ==
            match Address(roots, parent)
            case None => None
            case Some(n) => Child(n, index)
    decreases |parent|
  {
    var c := ChildIdentifier(parent, index);
    if parent[0] < |roots| && |parent| > 1 {
      assert c[1..] == ChildIdentifier(parent[1..], index);
      AddressChild(roots[parent[0]].children, parent[1..], index);
    }
  }

  /** Every nonempty prefix of an addressable identifier addresses a node
    * which, when the prefix is proper, has children. */
  lemma {:induction false} AddressPrefix(roots: seq<Node>, id: Id, m: nat)
    requires Address(roots, id).Some? && 0 < m <= |id|
    ensures Address(roots, id[..m]).Some?
    ensures m < |id| ==> Address(roots, id[..m]).value.children != []
    decreases |id|
  {
    if m > 1 {
      assert id[..m][1..] == id[1..][..m - 1];
      AddressPrefix(roots[id[0]].children, id[1..], m - 1);
    } else if m < |id| {
      assert id[1..] != [] && Address(roots[id[0]].children, id[1..]).Some?;
    }
  }
}
