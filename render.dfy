/**
 * The logic of drawing the tree: which window of the visible entries is
 * painted, the scroll offset that is stored back, and which marker stands in
 * front of each node. The painting itself is not modelled.
 */
module Render {
  import opened Wrappers
  import opened Identifier
  import opened Tree
  import opened Flattener
  import opened Navigation

  /** The total of `h[start..end]`. */
  function Sum(h: seq<nat>, start: nat, end: nat): nat
    requires start <= end <= |h|
    decreases end
  {
    if end == start then 0 else Sum(h, start, end - 1) + h[end - 1]
  }

  lemma {:induction false} SumSplit(h: seq<nat>, start: nat, mid: nat, end: nat)
    requires start <= mid <= end <= |h|
    ensures Sum(h, start, end) == Sum(h, start, mid) + Sum(h, mid, end)
    decreases end
  {
    if end > mid {
      SumSplit(h, start, mid, end - 1);
    }
  }

  /** One entry's height never exceeds the total of a range containing it. */
  lemma ElementBelowSum(h: seq<nat>, start: nat, i: nat, end: nat)
    requires start <= i < end <= |h|
    ensures h[i] <= Sum(h, start, end)
  {
    SumSplit(h, start, i, end);
    SumSplit(h, i, i + 1, end);
  }

  /**
   * The end of the window grown greedily from `start`: the longest range
   * starting there whose heights fit in `available`.
   */
  function GreedyEnd(h: seq<nat>, start: nat, available: nat): (end: nat)
    requires start <= |h|
    ensures start <= end <= |h| && Sum(h, start, end) <= available
    ensures end == |h| || Sum(h, start, end + 1) > available
  {
    GreedyFrom(h, start, start, available)
  }

  function GreedyFrom(h: seq<nat>, start: nat, end: nat, available: nat): (r: nat)
    requires start <= end <= |h| && Sum(h, start, end) <= available
    ensures end <= r <= |h| && Sum(h, start, r) <= available
    ensures r == |h| || Sum(h, start, r + 1) > available
    decreases |h| - end
  {
    if end == |h| || Sum(h, start, end) + h[end] > available then end
    else GreedyFrom(h, start, end + 1, available)
  }

  /**
   * The window the render loop computes, stated from its inputs: `first`
   * is the stored offset, moved back to the selection if that is above it.
   * When the window grown greedily from `first` reaches the selection, that
   * is the window; otherwise the window ends just after the selection and
   * starts at the first index from `first` on from which it fits.
   */
  ghost predicate WindowSpec(h: seq<nat>, selected: nat, offset: nat, available: nat, start: nat, end: nat)
    requires selected < |h|
  {
    var first := if offset < selected then offset else selected;
    var greedy := GreedyEnd(h, first, available);
    if selected < greedy then
      start == first && end == greedy
    else
      && end == selected + 1
      && first <= start <= end
      && Sum(h, start, end) <= available
      && (start > first ==> Sum(h, start - 1, end) > available)
  }

  /**
   * What the window promises: it is a range of the list that fits the
   * height and ends after the selection, and it contains the selection
   * exactly when the selected entry alone fits; when it does not, the
   * window is empty and starts just after the selection.
   */
  lemma WindowProperties(h: seq<nat>, selected: nat, offset: nat, available: nat, start: nat, end: nat)
    requires selected < |h|
    requires WindowSpec(h, selected, offset, available, start, end)
    ensures start <= end <= |h| && selected < end
    ensures Sum(h, start, end) <= available
    ensures start <= selected <==> h[selected] <= available
    ensures h[selected] > available ==> start == end == selected + 1
  {
    var first := if offset < selected then offset else selected;
    if start <= selected {
      ElementBelowSum(h, start, selected, end);
    } else {
      assert Sum(h, selected, selected + 1) == h[selected];
    }
  }

  /** The window is determined by its inputs. */
  lemma WindowUnique(h: seq<nat>, selected: nat, offset: nat, available: nat,
                     start1: nat, end1: nat, start2: nat, end2: nat)
    requires selected < |h|
    requires WindowSpec(h, selected, offset, available, start1, end1)
    requires WindowSpec(h, selected, offset, available, start2, end2)
    ensures start1 == start2 && end1 == end2
  {
    var first := if offset < selected then offset else selected;
    if !(selected < GreedyEnd(h, first, available)) {
      if start1 < start2 {
        SumSplit(h, start1, start2 - 1, end1);
      } else if start2 < start1 {
        SumSplit(h, start2, start1 - 1, end1);
      }
    }
  }

  /** The first half of the render loop: grow the window while the next entry fits. */
  method GrowWindow(h: seq<nat>, start: nat, available: nat) returns (end: nat, height: nat)
    requires start <= |h|
    ensures end == GreedyEnd(h, start, available) && height == Sum(h, start, end)
  {
    end := start;
    height := 0;
    while end < |h|
      invariant start <= end <= |h| && height == Sum(h, start, end) <= available
      invariant GreedyFrom(h, start, end, available) == GreedyEnd(h, start, available)
      decreases |h| - end
    {
      if height + h[end] > available {
        break;
      }
      height := height + h[end];
      end := end + 1;
    }
  }

  /**
   * The inner half of the render loop: drop entries from the front until the
   * window fits; it keeps the last entry when that alone fits.
   */
  method ShrinkWindow(h: seq<nat>, ghost first: nat, start0: nat, end: nat, height0: nat, available: nat)
    returns (start: nat, height: nat)
    requires first <= start0 < end <= |h| && height0 == Sum(h, start0, end)
    requires start0 > first ==> Sum(h, start0 - 1, end - 1) > available
    ensures start0 <= start <= end && height == Sum(h, start, end) <= available
    ensures start > first ==> Sum(h, start - 1, end) > available
    ensures h[end - 1] <= available ==> start < end
  {
    if start0 > first {
      SumSplit(h, start0 - 1, end - 1, end);
    }
    start, height := start0, height0;
    while height > available
      invariant start0 <= start <= end && height == Sum(h, start, end)
      invariant start > first ==> Sum(h, start - 1, end) > available
      invariant h[end - 1] <= available ==> start < end
      decreases end - start
    {
      SumSplit(h, start, start + 1, end);
      height := height - h[start];
      start := start + 1;
    }
  }

  /**
   * The render loop: start at the stored offset or the selection, whichever
   * is smaller; grow the window while the next entry fits; then, while the
   * selection is not yet in the window, add the next entry and drop entries
   * from the front until the window fits again.
   */
  method ScrollWindow(h: seq<nat>, selected: nat, offset: nat, available: nat) returns (start: nat, end: nat)
    requires selected < |h|
    ensures WindowSpec(h, selected, offset, available, start, end)
    ensures start <= end <= |h| && selected < end
    ensures Sum(h, start, end) <= available
    ensures start <= selected <==> h[selected] <= available
    ensures h[selected] > available ==> start == end == selected + 1
  {
    start := if offset < selected then offset else selected;
    ghost var first := start;
    var height;
    end, height := GrowWindow(h, start, available);
    ghost var greedy := end;
    while selected >= end
      invariant first <= start <= end <= |h| && height == Sum(h, start, end) <= available
      invariant start > first ==> Sum(h, start - 1, end) > available
      invariant (end == greedy && start == first) || (greedy <= selected && greedy < end <= selected + 1)
      decreases selected + 1 - end
    {
      height := height + h[end];
      end := end + 1;
      start, height := ShrinkWindow(h, first, start, end, height, available);
    }
    WindowProperties(h, selected, offset, available, start, end);
  }

  /** The heights of the visible entries, in order. */
  function Heights(v: seq<Flattened>): (r: seq<nat>)
    ensures |r| == |v| && forall i :: 0 <= i < |v| ==> r[i] == Height(v[i].item)
  {
    seq(|v|, i requires 0 <= i < |v| => Height(v[i].item))
  }

  /** The index the window is kept around: the selection's, or 0 when none is found. */
  function SelectedIndex(v: seq<Flattened>, selected: Id): (r: nat)
    ensures v != [] ==> r < |v|
    ensures selected != [] && r < |v| && v[r].identifier == selected ==> Position(v, selected) == Some(r)
    ensures selected != [] && (exists i :: 0 <= i < |v| && v[i].identifier == selected) ==>
              r < |v| && v[r].identifier == selected && forall j :: 0 <= j < r ==> v[j].identifier != selected
    ensures selected == [] || (forall i :: 0 <= i < |v| ==> v[i].identifier != selected) ==> r == 0
  {
    if selected == [] then 0
    else match Position(v, selected)
      case None => 0
      case Some(i) => i
  }

  /**
   * The state-changing part of rendering: on a nonempty area and a nonempty
   * visible list, the scroll offset becomes the start of the window, and
   * the entries `painted` are the window's.
   */
  method Render(state: TreeState, items: seq<Node>, areaWidth: nat, areaHeight: nat) returns (painted: seq<Flattened>)
    requires state.Valid()
    modifies state
    ensures state.Valid()
    ensures state.openSet == old(state.openSet) && state.selected == old(state.selected)
    ensures var v := Flatten(old(state.openSet), items);
            if areaWidth < 1 || areaHeight < 1 || v == [] then
              painted == [] && state.offset == old(state.offset)
            else
              var sel := SelectedIndex(v, old(state.selected));
              && state.offset + |painted| <= |v|
              && WindowSpec(Heights(v), sel, old(state.offset), areaHeight, state.offset, state.offset + |painted|)
              && painted == v[state.offset..state.offset + |painted|]
  {
    if areaWidth < 1 || areaHeight < 1 {
      return [];
    }
    var visible := Flatten(state.openSet, items);
    if visible == [] {
      return [];
    }
    var selectedIndex := SelectedIndex(visible, state.selected);
    var start, end := ScrollWindow(Heights(visible), selectedIndex, state.offset, areaHeight);
    painted := visible[start..end];
    assert start + |painted| == end;
    state.offset := start;
  }

  /**
   * What the window shows of a visible selection: the selected entry is
   * among the painted ones exactly when its item alone fits the height.
   */
  lemma RenderedSelection(openSet: set<Id>, roots: seq<Node>, selected: Id, offset: nat, available: nat,
                          start: nat, end: nat)
    requires var v := Flatten(openSet, roots);
             v != [] && WindowSpec(Heights(v), SelectedIndex(v, selected), offset, available, start, end)
    requires selected != [] && selected in Ids(Flatten(openSet, roots))
    ensures var v := Flatten(openSet, roots);
            && start <= end <= |v|
            && Sum(Heights(v), start, end) <= available
            && ((exists k :: start <= k < end && v[k].identifier == selected) <==>
                Height(v[SelectedIndex(v, selected)].item) <= available)
  {
    var v := Flatten(openSet, roots);
    var h := Heights(v);
    var i := SelectedIndex(v, selected);
    WindowProperties(h, i, offset, available, start, end);
    FlattenDistinct(openSet, roots);
    var j :| 0 <= j < |v| && Ids(v)[j] == selected;
    assert Position(v, selected).Some?;
    assert v[i].identifier == selected && h[i] == Height(v[i].item);
    DistinctInRange(v, i, start, end);
  }

  /** With distinct identifiers, entry `i`'s identifier is in a range exactly when `i` is. */
  lemma DistinctInRange(v: seq<Flattened>, i: nat, start: nat, end: nat)
    requires i < |v| && start <= end <= |v|
    requires forall a, b :: 0 <= a < b < |v| ==> v[a].identifier != v[b].identifier
    ensures (exists k :: start <= k < end && v[k].identifier == v[i].identifier) <==> start <= i < end
  {
    if exists k :: start <= k < end && v[k].identifier == v[i].identifier {
      var k :| start <= k < end && v[k].identifier == v[i].identifier;
      assert !(k < i) && !(i < k);
    }
    if start <= i < end {
      assert start <= i < end && v[i].identifier == v[i].identifier;
    }
  }

  /** The symbol in front of a node. */
  datatype Marker = NoChildrenSymbol | OpenSymbol | ClosedSymbol

  function NodeMarker(openSet: set<Id>, e: Flattened): Marker
  {
    if e.item.children == [] then NoChildrenSymbol
    else if e.identifier in openSet then OpenSymbol
    else ClosedSymbol
  }

  /**
   * Every visible node's marker tells the truth about the list:
   * "no children" exactly for leaves, "open" exactly when its first child
   * is listed right below it, "closed" exactly when it has children and they
   * are not listed.
   */
  lemma MarkerMatchesList(openSet: set<Id>, roots: seq<Node>, i: nat)
    requires i < |Flatten(openSet, roots)|
    ensures var v := Flatten(openSet, roots);
            NodeMarker(openSet, v[i]) == NoChildrenSymbol <==> v[i].item.children == []
    ensures var v := Flatten(openSet, roots);
            NodeMarker(openSet, v[i]) == OpenSymbol <==>
            (i + 1 < |v| && v[i + 1].identifier == ChildIdentifier(v[i].identifier, 0))
    ensures var v := Flatten(openSet, roots);
            NodeMarker(openSet, v[i]) == ClosedSymbol <==>
            (v[i].item.children != [] &&
             forall c :: 0 <= c < |v[i].item.children| ==>
               Flattened(ChildIdentifier(v[i].identifier, c), v[i].item.children[c]) !in v)
  {
    var v := Flatten(openSet, roots);
    FirstChildFollows(openSet, roots, i);
    if v[i].item.children != [] {
      ChildrenShownIffOpened(openSet, roots, i, 0);
      forall c | 0 <= c < |v[i].item.children|
        ensures Flattened(ChildIdentifier(v[i].identifier, c), v[i].item.children[c]) in v <==> v[i].identifier in openSet
      {
        ChildrenShownIffOpened(openSet, roots, i, c);
      }
    }
  }
}
