/**
 * The flattener: the ordered list of visible entries of a forest, given the
 * set of identifiers whose children are shown. A root is always visible; any
 * other node is visible when its parent is visible and opened.
 */
module Flattener {
  import opened Wrappers
  import opened Identifier
  import opened Tree

  /** One visible entry: an identifier and the item it addresses. */
  datatype Flattened = Flattened(identifier: Id, item: Node)

  /**
   * `internal`: the entries for `items` whose parent has identifier
   * `current`, each item followed by its own entries when it is opened.
   */
  function Internal(openSet: set<Id>, items: seq<Node>, current: Id): seq<Flattened>
    decreases items, |items| + 1
  {
    Walk(openSet, items, current, |items|)
  }

  /** The result of `internal` after the first `k` iterations of its loop. */
  function Walk(openSet: set<Id>, items: seq<Node>, current: Id, k: nat): seq<Flattened>
    requires k <= |items|
    decreases items, k
  {
    if k == 0 then []
    else
      var id := ChildIdentifier(current, k - 1);
      Walk(openSet, items, current, k - 1) + [Flattened(id, items[k - 1])] +
      (if id in openSet then Internal(openSet, items[k - 1].children, id) else [])
  }

  /** `flatten`: all visible entries of the forest `items`, in display order. */
  function Flatten(openSet: set<Id>, items: seq<Node>): seq<Flattened>
  {
    Internal(openSet, items, [])
  }

  /** The identifiers of a list of entries. */
  function Ids(v: seq<Flattened>): (r: seq<Id>)
    ensures |r| == |v| && forall i :: 0 <= i < |v| ==> r[i] == v[i].identifier
  {
    seq(|v|, i requires 0 <= i < |v| => v[i].identifier)
  }

  /**
   * The reference definition of visibility: the identifier addresses a node
   * and every nonempty proper prefix of it (every ancestor) is opened.
   */
  ghost predicate IsVisible(openSet: set<Id>, roots: seq<Node>, id: Id)
  {
    Address(roots, id).Some? && forall m :: 0 < m < |id| ==> id[..m] in openSet
  }

  /** Entries listed in strictly increasing identifier order. */
  ghost predicate Sorted(v: seq<Flattened>)
  {
    forall i, j :: 0 <= i < j < |v| ==> Precedes(v[i].identifier, v[j].identifier)
  }

  /** What `Walk(openSet, items, current, k)` may contain, relative to `current`. */
  ghost predicate ReachedUnder(openSet: set<Id>, items: seq<Node>, current: Id, k: nat, e: Flattened)
  {
    && |e.identifier| > |current| && e.identifier[..|current|] == current
    && e.identifier[|current|] < k
    && Address(items, e.identifier[|current|..]) == Some(e.item)
    && forall m :: |current| < m < |e.identifier| ==> e.identifier[..m] in openSet
  }

  lemma {:induction false} WalkSound(openSet: set<Id>, items: seq<Node>, current: Id, k: nat)
    requires k <= |items|
    ensures forall e :: e in Walk(openSet, items, current, k) ==> ReachedUnder(openSet, items, current, k, e)
    decreases items, k
  {
    if k > 0 {
      var id := ChildIdentifier(current, k - 1);
      var head := Flattened(id, items[k - 1]);
      WalkSound(openSet, items, current, k - 1);
      assert head.identifier[|current|..] == [k - 1];
      if id in openSet {
        var ch := items[k - 1].children;
        WalkSound(openSet, ch, id, |ch|);
        assert Internal(openSet, ch, id) == Walk(openSet, ch, id, |ch|);
        forall e | e in Internal(openSet, ch, id)
          ensures ReachedUnder(openSet, items, current, k, e)
        {
          assert ReachedUnder(openSet, ch, id, |ch|, e);
          assert e.identifier[..|current|] == e.identifier[..|id|][..|current|];
          var rel := e.identifier[|current|..];
          assert rel == [k - 1] + e.identifier[|id|..];
          assert rel[1..] == e.identifier[|id|..];
        }
      }
    }
  }

  lemma {:induction false} WalkComplete(openSet: set<Id>, items: seq<Node>, current: Id, k: nat, rel: Id)
    requires k <= |items|
    requires rel != [] && rel[0] < k && Address(items, rel).Some?
    requires forall m :: 0 < m < |rel| ==> current + rel[..m] in openSet
    ensures Flattened(current + rel, Address(items, rel).value) in Walk(openSet, items, current, k)
    decreases items, k
  {
    var id := ChildIdentifier(current, k - 1);
    if rel[0] < k - 1 {
      WalkComplete(openSet, items, current, k - 1, rel);
    } else if |rel| == 1 {
      assert current + rel == id;
    } else {
      assert rel[..1] == [k - 1];
      assert id in openSet;
      var ch := items[k - 1].children;
      var rest := rel[1..];
      forall m | 0 < m < |rest| ensures id + rest[..m] in openSet {
        assert id + rest[..m] == current + rel[..m + 1];
      }
      WalkComplete(openSet, ch, id, |ch|, rest);
      assert id + rest == current + rel;
    }
  }

  lemma SortedConcat(a: seq<Flattened>, b: seq<Flattened>)
    requires Sorted(a) && Sorted(b)
    requires forall x, y :: x in a && y in b ==> Precedes(x.identifier, y.identifier)
    ensures Sorted(a + b)
  {
    forall i, j | 0 <= i < j < |a + b|
      ensures Precedes((a + b)[i].identifier, (a + b)[j].identifier)
    {
      if j < |a| {
      } else if i >= |a| {
        assert (a + b)[i] == b[i - |a|] && (a + b)[j] == b[j - |a|];
      } else {
        assert (a + b)[i] in a && (a + b)[j] in b;
      }
    }
  }

  /** An identifier below `current` splits into `current`, one index, and the rest. */
  lemma SplitBelow(id: Id, current: Id)
    requires |id| > |current| && id[..|current|] == current
    ensures id == current + [id[|current|]] + id[|current| + 1..]
  {
  }

  /** One more iteration of the loop: the next item, then its entries if it is opened. */
  lemma WalkUnfold(openSet: set<Id>, items: seq<Node>, current: Id, k: nat)
    requires 0 < k <= |items|
    ensures var id := ChildIdentifier(current, k - 1);
            Walk(openSet, items, current, k) ==
            Walk(openSet, items, current, k - 1) +
            ([Flattened(id, items[k - 1])] + (if id in openSet then Internal(openSet, items[k - 1].children, id) else []))
  {
  }

  /** An opened item's entries all come after the item itself. */
  lemma ItemPrecedesEntries(openSet: set<Id>, ch: seq<Node>, id: Id)
    ensures forall y :: y in Internal(openSet, ch, id) ==> Precedes(id, y.identifier)
  {
    assert Internal(openSet, ch, id) == Walk(openSet, ch, id, |ch|);
    WalkSound(openSet, ch, id, |ch|);
    forall y | y in Internal(openSet, ch, id) ensures Precedes(id, y.identifier) {
      assert ReachedUnder(openSet, ch, id, |ch|, y);
      assert y.identifier == id + y.identifier[|id|..];
      AncestorPrecedes(id, y.identifier[|id|..]);
    }
  }

  /** Below `current`, an identifier through an earlier index comes first. */
  lemma EarlierIndexPrecedes(current: Id, a: Id, b: Id)
    requires |a| > |current| && a[..|current|] == current
    requires |b| > |current| && b[..|current|] == current
    requires a[|current|] < b[|current|]
    ensures Precedes(a, b)
  {
    SplitBelow(a, current);
    SplitBelow(b, current);
    SiblingsPrecede(current, a[|current|], b[|current|], a[|current| + 1..], b[|current| + 1..]);
  }

  /** The entries of the first `k - 1` items come before item `k - 1` and its entries. */
  lemma EarlierPrecedeLater(openSet: set<Id>, items: seq<Node>, current: Id, k: nat)
    requires 0 < k <= |items|
    ensures var id := ChildIdentifier(current, k - 1);
            var rest := [Flattened(id, items[k - 1])] +
                        (if id in openSet then Internal(openSet, items[k - 1].children, id) else []);
            forall x, y :: x in Walk(openSet, items, current, k - 1) && y in rest ==>
              Precedes(x.identifier, y.identifier)
  {
    var id := ChildIdentifier(current, k - 1);
    var ch := items[k - 1].children;
    var rest := [Flattened(id, items[k - 1])] + (if id in openSet then Internal(openSet, ch, id) else []);
    WalkSound(openSet, items, current, k - 1);
    if id in openSet {
      assert Internal(openSet, ch, id) == Walk(openSet, ch, id, |ch|);
      WalkSound(openSet, ch, id, |ch|);
    }
    forall y | y in rest
      ensures |y.identifier| > |current| && y.identifier[..|current|] == current && y.identifier[|current|] == k - 1
    {
      if y.identifier != id {
        assert ReachedUnder(openSet, ch, id, |ch|, y);
        assert y.identifier[..|current|] == y.identifier[..|id|][..|current|];
      }
    }
    forall x, y | x in Walk(openSet, items, current, k - 1) && y in rest
      ensures Precedes(x.identifier, y.identifier)
    {
      assert ReachedUnder(openSet, items, current, k - 1, x);
      EarlierIndexPrecedes(current, x.identifier, y.identifier);
    }
  }

  /** The shape of one iteration keeps the list sorted. */
  lemma SortedStep(prev: seq<Flattened>, head: Flattened, sub: seq<Flattened>)
    requires Sorted(prev) && Sorted(sub)
    requires forall y :: y in sub ==> Precedes(head.identifier, y.identifier)
    requires forall x, y :: x in prev && y in [head] + sub ==> Precedes(x.identifier, y.identifier)
    ensures Sorted(prev + ([head] + sub))
  {
    SortedConcat([head], sub);
    SortedConcat(prev, [head] + sub);
  }

  /** One iteration of the loop keeps the list sorted if the opened item's own entries are. */
  lemma WalkStepSorted(openSet: set<Id>, items: seq<Node>, current: Id, k: nat)
    requires 0 < k <= |items|
    requires Sorted(Walk(openSet, items, current, k - 1))
    requires var id := ChildIdentifier(current, k - 1);
             id in openSet ==> Sorted(Internal(openSet, items[k - 1].children, id))
    ensures Sorted(Walk(openSet, items, current, k))
  {
    var id := ChildIdentifier(current, k - 1);
    var head := Flattened(id, items[k - 1]);
    var ch := items[k - 1].children;
    var sub := if id in openSet then Internal(openSet, ch, id) else [];
    WalkUnfold(openSet, items, current, k);
    if id in openSet {
      ItemPrecedesEntries(openSet, ch, id);
    }
    EarlierPrecedeLater(openSet, items, current, k);
    SortedStep(Walk(openSet, items, current, k - 1), head, sub);
  }

  lemma {:induction false} WalkSorted(openSet: set<Id>, items: seq<Node>, current: Id, k: nat)
    requires k <= |items|
    ensures Sorted(Walk(openSet, items, current, k))
    decreases items, k
  {
    if k > 0 {
      var id := ChildIdentifier(current, k - 1);
      var ch := items[k - 1].children;
      WalkSorted(openSet, items, current, k - 1);
      if id in openSet {
        assert Internal(openSet, ch, id) == Walk(openSet, ch, id, |ch|);
        WalkSorted(openSet, ch, id, |ch|);
      }
      WalkStepSorted(openSet, items, current, k);
    }
  }

  /**
   * The flattener's specification: the entries are exactly the visible
   * identifiers, each with the item it addresses, listed in strictly
   * increasing pre-order. Since a strictly sorted list is determined by its
   * elements (FlattenUnique), this pins the result down completely.
   */
  lemma FlattenSpec(openSet: set<Id>, roots: seq<Node>)
    ensures Sorted(Flatten(openSet, roots))
    ensures forall i :: 0 <= i < |Flatten(openSet, roots)| ==>
              var e := Flatten(openSet, roots)[i];
              IsVisible(openSet, roots, e.identifier) && Address(roots, e.identifier) == Some(e.item)
    ensures forall id :: IsVisible(openSet, roots, id) ==>
              Flattened(id, Address(roots, id).value) in Flatten(openSet, roots)
  {
    var v := Flatten(openSet, roots);
    WalkSorted(openSet, roots, [], |roots|);
    WalkSound(openSet, roots, [], |roots|);
    forall i | 0 <= i < |v|
      ensures IsVisible(openSet, roots, v[i].identifier) && Address(roots, v[i].identifier) == Some(v[i].item)
    {
      assert ReachedUnder(openSet, roots, [], |roots|, v[i]);
      assert v[i].identifier[0..] == v[i].identifier;
    }
    forall id | IsVisible(openSet, roots, id)
      ensures Flattened(id, Address(roots, id).value) in v
    {
      forall m | 0 < m < |id| ensures [] + id[..m] in openSet {
        assert [] + id[..m] == id[..m];
      }
      WalkComplete(openSet, roots, [], |roots|, id);
      assert [] + id == id;
    }
  }

  lemma HeadIsMember(v: seq<Flattened>)
    ensures v != [] ==> v[0] in v
  {
  }

  /** A strictly sorted list of entries is determined by its elements. */
  lemma {:induction false} SortedUnique(a: seq<Flattened>, b: seq<Flattened>)
    requires Sorted(a) && Sorted(b)
    requires forall x :: x in a <==> x in b
    ensures a == b
    decreases |a|
  {
    if a == [] {
      if b != [] {
        HeadIsMember(b);
        assert false;
      }
    } else {
      assert a[0] in b;
      assert b != [];
      if a[0] != b[0] {
        var j :| 0 <= j < |b| && b[j] == a[0];
        assert b[0] in a;
        var i :| 0 <= i < |a| && a[i] == b[0];
        assert Precedes(b[0].identifier, a[0].identifier);
        PrecedesAsymmetric(b[0].identifier, a[0].identifier);
        assert false;
      }
      assert a == [a[0]] + a[1..] && b == [b[0]] + b[1..];
      PrecedesIrreflexive(a[0].identifier);
      forall x ensures x in a[1..] <==> x in b[1..] {
        if x in a[1..] {
          var i :| 1 <= i < |a| && a[i] == x;
          assert Precedes(a[0].identifier, x.identifier);
          assert x in b && x != b[0];
        }
        if x in b[1..] {
          var j :| 1 <= j < |b| && b[j] == x;
          assert Precedes(b[0].identifier, x.identifier);
          assert x in a && x != a[0];
        }
      }
      SortedUnique(a[1..], b[1..]);
      assert a == [a[0]] + a[1..] && b == [b[0]] + b[1..];
    }
  }

  /** Two open sets that make the same identifiers visible flatten alike. */
  lemma FlattenUnique(o1: set<Id>, o2: set<Id>, roots: seq<Node>)
    requires forall id :: IsVisible(o1, roots, id) <==> IsVisible(o2, roots, id)
    ensures Flatten(o1, roots) == Flatten(o2, roots)
  {
    var v1, v2 := Flatten(o1, roots), Flatten(o2, roots);
    FlattenSpec(o1, roots);
    FlattenSpec(o2, roots);
    forall x ensures x in v1 <==> x in v2 {
      if x in v1 {
        var i :| 0 <= i < |v1| && v1[i] == x;
        assert IsVisible(o2, roots, x.identifier);
      }
      if x in v2 {
        var i :| 0 <= i < |v2| && v2[i] == x;
        assert IsVisible(o1, roots, x.identifier);
      }
    }
    SortedUnique(v1, v2);
  }

  /**
   * Opening an identifier that names a leaf, names nothing, or sits under a
   * closed ancestor changes nothing that is shown.
   */
  lemma OpeningWithoutEffect(openSet: set<Id>, roots: seq<Node>, x: Id)
    requires !(IsVisible(openSet, roots, x) && Address(roots, x).value.children != [])
    ensures Flatten(openSet + {x}, roots) == Flatten(openSet, roots)
  {
    forall id ensures IsVisible(openSet + {x}, roots, id) <==> IsVisible(openSet, roots, id) {
      if IsVisible(openSet + {x}, roots, id) && !IsVisible(openSet, roots, id) {
        var m :| 0 < m < |id| && id[..m] !in openSet;
        assert id[..m] == x;
        AddressPrefix(roots, id, m);
        forall m' | 0 < m' < |x| ensures x[..m'] in openSet {
          assert x[..m'] == id[..m'];
        }
        assert false;
      }
    }
    FlattenUnique(openSet + {x}, openSet, roots);
  }

  /** Identifiers in the flattened list are pairwise distinct. */
  lemma FlattenDistinct(openSet: set<Id>, roots: seq<Node>)
    ensures forall i, j :: 0 <= i < j < |Flatten(openSet, roots)| ==>
              Flatten(openSet, roots)[i].identifier != Flatten(openSet, roots)[j].identifier
  {
    FlattenSpec(openSet, roots);
    forall i, j | 0 <= i < j < |Flatten(openSet, roots)|
      ensures Flatten(openSet, roots)[i].identifier != Flatten(openSet, roots)[j].identifier
    {
      PrecedesIrreflexive(Flatten(openSet, roots)[i].identifier);
    }
  }

  /** The root entries of a list: those whose identifier has one index. */
  function TopLevel(v: seq<Flattened>): seq<Flattened>
  {
    if v == [] then []
    else (if |v[0].identifier| == 1 then [v[0]] else []) + TopLevel(v[1..])
  }

  lemma {:induction false} TopLevelConcat(a: seq<Flattened>, b: seq<Flattened>)
    ensures TopLevel(a + b) == TopLevel(a) + TopLevel(b)
    decreases |a|
  {
    if a != [] {
      assert (a + b)[1..] == a[1..] + b;
      TopLevelConcat(a[1..], b);
    } else {
      assert a + b == b;
    }
  }

  /** The roots, in order, at identifiers `[0]`, `[1]`, ...: what an empty open set shows. */
  function RootEntries(roots: seq<Node>): (r: seq<Flattened>)
    ensures |r| == |roots| && forall k :: 0 <= k < |roots| ==> r[k] == Flattened([k], roots[k])
  {
    seq(|roots|, k requires 0 <= k < |roots| => Flattened([k], roots[k]))
  }

  lemma RootEntriesSnoc(roots: seq<Node>, k: nat)
    requires 0 < k <= |roots|
    ensures RootEntries(roots)[..k] == RootEntries(roots)[..k - 1] + [Flattened([k - 1], roots[k - 1])]
  {
    var r := RootEntries(roots);
    assert r[..k][k - 1] == Flattened([k - 1], roots[k - 1]);
  }

  lemma {:induction false} WalkClosed(roots: seq<Node>, k: nat)
    requires k <= |roots|
    ensures Walk({}, roots, [], k) == RootEntries(roots)[..k]
  {
    if k > 0 {
      WalkClosed(roots, k - 1);
      RootEntriesSnoc(roots, k);
    }
  }

  lemma {:induction false} NoTopLevelBelow(v: seq<Flattened>)
    requires forall e :: e in v ==> |e.identifier| > 1
    ensures TopLevel(v) == []
    decreases |v|
  {
    if v != [] {
      NoTopLevelBelow(v[1..]);
    }
  }

  /** Nothing below a root is itself a root entry. */
  lemma NoTopLevelUnderRoot(openSet: set<Id>, ch: seq<Node>, id: Id)
    requires |id| == 1
    ensures TopLevel(Internal(openSet, ch, id)) == []
  {
    var sub := Internal(openSet, ch, id);
    assert sub == Walk(openSet, ch, id, |ch|);
    WalkSound(openSet, ch, id, |ch|);
    forall e | e in sub ensures |e.identifier| > 1 {
      assert ReachedUnder(openSet, ch, id, |ch|, e);
    }
    NoTopLevelBelow(sub);
  }

  lemma TopLevelStep(prev: seq<Flattened>, head: Flattened, sub: seq<Flattened>)
    requires |head.identifier| == 1 && TopLevel(sub) == []
    ensures TopLevel(prev + ([head] + sub)) == TopLevel(prev) + [head]
  {
    assert TopLevel([head]) == [head] + TopLevel([]);
    TopLevelConcat([head], sub);
    TopLevelConcat(prev, [head] + sub);
    assert [head] + [] == [head];
  }

  lemma {:induction false} WalkTopLevel(openSet: set<Id>, roots: seq<Node>, k: nat)
    requires k <= |roots|
    ensures TopLevel(Walk(openSet, roots, [], k)) == RootEntries(roots)[..k]
  {
    if k > 0 {
      var id := ChildIdentifier([], k - 1);
      var head := Flattened(id, roots[k - 1]);
      var sub := if id in openSet then Internal(openSet, roots[k - 1].children, id) else [];
      var prev := Walk(openSet, roots, [], k - 1);
      WalkUnfold(openSet, roots, [], k);
      WalkTopLevel(openSet, roots, k - 1);
      if id in openSet {
        NoTopLevelUnderRoot(openSet, roots[k - 1].children, id);
      }
      TopLevelStep(prev, head, sub);
      RootEntriesSnoc(roots, k);
    }
  }

  /**
   * Whatever is opened, the root entries of the flattened list are the
   * roots in order; with nothing opened they are the whole list.
   */
  lemma FlattenRoots(openSet: set<Id>, roots: seq<Node>)
    ensures TopLevel(Flatten(openSet, roots)) == RootEntries(roots)
    ensures Flatten({}, roots) == RootEntries(roots)
    ensures |Flatten(openSet, roots)| >= |roots|
    ensures Flatten(openSet, roots) == [] <==> roots == []
  {
    WalkTopLevel(openSet, roots, |roots|);
    WalkClosed(roots, |roots|);
    assert RootEntries(roots)[..|roots|] == RootEntries(roots);
    TopLevelLength(Flatten(openSet, roots));
  }

  lemma {:induction false} TopLevelLength(v: seq<Flattened>)
    ensures |TopLevel(v)| <= |v|
    decreases |v|
  {
    if v != [] {
      TopLevelLength(v[1..]);
    }
  }

  /**
   * A visible node's children are listed exactly when the node is opened,
   * each at its parent's identifier extended by its child index.
   */
  lemma ChildrenShownIffOpened(openSet: set<Id>, roots: seq<Node>, i: nat, c: nat)
    requires i < |Flatten(openSet, roots)|
    requires c < |Flatten(openSet, roots)[i].item.children|
    ensures var e := Flatten(openSet, roots)[i];
            Flattened(ChildIdentifier(e.identifier, c), e.item.children[c]) in Flatten(openSet, roots)
            <==> e.identifier in openSet
  {
    var v := Flatten(openSet, roots);
    var e := v[i];
    var cid := ChildIdentifier(e.identifier, c);
    FlattenSpec(openSet, roots);
    assert IsVisible(openSet, roots, e.identifier);
    AddressChild(roots, e.identifier, c);
    if e.identifier in openSet {
      forall m | 0 < m < |cid| ensures cid[..m] in openSet {
        if m < |e.identifier| {
          assert cid[..m] == e.identifier[..m];
        } else {
          assert cid[..m] == e.identifier;
        }
      }
      assert IsVisible(openSet, roots, cid);
    }
    if Flattened(cid, e.item.children[c]) in v {
      var p :| 0 <= p < |v| && v[p] == Flattened(cid, e.item.children[c]);
      assert IsVisible(openSet, roots, cid);
      assert cid[..|e.identifier|] == e.identifier;
    }
  }

  /**
   * An entry is immediately followed by its first child exactly when it is
   * opened and has children: an opened node's children come right after it.
   */
  lemma FirstChildFollows(openSet: set<Id>, roots: seq<Node>, i: nat)
    requires i < |Flatten(openSet, roots)|
    ensures var v := Flatten(openSet, roots);
            (v[i].identifier in openSet && v[i].item.children != []) <==>
            (i + 1 < |v| && v[i + 1].identifier == ChildIdentifier(v[i].identifier, 0))
    ensures var v := Flatten(openSet, roots);
            v[i].identifier in openSet && v[i].item.children != [] ==>
            v[i + 1] == Flattened(ChildIdentifier(v[i].identifier, 0), v[i].item.children[0])
  {
    var v := Flatten(openSet, roots);
    var id := v[i].identifier;
    var first := ChildIdentifier(id, 0);
    FlattenSpec(openSet, roots);
    assert IsVisible(openSet, roots, id);
    if id in openSet && v[i].item.children != [] {
      ChildrenShownIffOpened(openSet, roots, i, 0);
      var p :| 0 <= p < |v| && v[p] == Flattened(first, v[i].item.children[0]);
      AncestorPrecedes(id, [0]);
      if p < i {
        PrecedesAsymmetric(id, first);
      }
      assert p != i;
      if p > i + 1 {
        NothingBeforeFirstChild(id, v[i + 1].identifier);
      }
    }
    if i + 1 < |v| && v[i + 1].identifier == first {
      assert IsVisible(openSet, roots, first);
      assert first[..|id|] == id;
      AddressChild(roots, id, 0);
    }
  }
}
