/**
 * The widget's state: the scroll offset, the set of opened identifiers and
 * the selected identifier, with the operations a program calls on key
 * presses. Every movement is computed on the flattened list of visible
 * entries.
 */
module Navigation {
  import opened Wrappers
  import opened Identifier
  import opened Tree
  import opened Flattener

  /** The index of the first entry with identifier `id`, if any. */
  function Position(v: seq<Flattened>, id: Id): (r: Option<nat>)
    ensures r.Some? ==> r.value < |v| && v[r.value].identifier == id &&
                        forall j :: 0 <= j < r.value ==> v[j].identifier != id
    ensures r.None? ==> forall j :: 0 <= j < |v| ==> v[j].identifier != id
    decreases |v|
  {
    if v == [] then None
    else if v[0].identifier == id then Some(0)
    else match Position(v[1..], id)
      case None => None
      case Some(i) => Some(i + 1)
  }

  /** The index `key_up` moves to: one up, but not above the first entry. */
  function UpIndex(v: seq<Flattened>, id: Id): nat
  {
    match Position(v, id)
    case None => 0
    case Some(i) =>
      var j := if i == 0 then 0 else i - 1;
      if j < |v| - 1 then j else |v| - 1
  }

  /** The index `key_down` moves to: one down, but not below the last entry. */
  function DownIndex(v: seq<Flattened>, id: Id): nat
  {
    match Position(v, id)
    case None => 0
    case Some(i) =>
      var j := i + 1;
      if j < |v| - 1 then j else |v| - 1
  }

  /** The identifier at index `k`, or the empty identifier past the end. */
  function Target(v: seq<Flattened>, k: nat): Id
  {
    if k < |v| then v[k].identifier else []
  }

  /**
   * A selection found at index `i` moves up to `max(i - 1, 0)` and down to
   * `min(i + 1, len - 1)`; a selection that is not visible moves to the
   * first entry either way.
   */
  lemma MoveFromIndex(openSet: set<Id>, roots: seq<Node>, id: Id)
    ensures var v := Flatten(openSet, roots);
            forall i :: 0 <= i < |v| && v[i].identifier == id ==>
              UpIndex(v, id) == (if i == 0 then 0 else i - 1) &&
              DownIndex(v, id) == (if i + 1 < |v| then i + 1 else i)
    ensures var v := Flatten(openSet, roots);
            (forall i :: 0 <= i < |v| ==> v[i].identifier != id) ==>
              UpIndex(v, id) == 0 && DownIndex(v, id) == 0
  {
    var v := Flatten(openSet, roots);
    FlattenDistinct(openSet, roots);
    forall i | 0 <= i < |v| && v[i].identifier == id
      ensures Position(v, id) == Some(i)
    {
      assert Position(v, id).Some?;
    }
  }

  /**
   * On an empty forest every move selects nothing; otherwise every move
   * selects a visible identifier, one that the flattened list lists.
   */
  lemma MoveStaysVisible(openSet: set<Id>, roots: seq<Node>, id: Id)
    ensures var v := Flatten(openSet, roots);
            roots == [] ==> Target(v, UpIndex(v, id)) == [] && Target(v, DownIndex(v, id)) == []
    ensures var v := Flatten(openSet, roots);
            roots != [] ==>
              UpIndex(v, id) < |v| && DownIndex(v, id) < |v| &&
              IsVisible(openSet, roots, Target(v, UpIndex(v, id))) &&
              IsVisible(openSet, roots, Target(v, DownIndex(v, id)))
  {
    var v := Flatten(openSet, roots);
    FlattenRoots(openSet, roots);
    FlattenSpec(openSet, roots);
  }

  /** Moving down and then up returns to the start, except from the last entry. */
  lemma DownThenUp(openSet: set<Id>, roots: seq<Node>, i: nat)
    requires i + 1 < |Flatten(openSet, roots)|
    ensures var v := Flatten(openSet, roots);
            Target(v, UpIndex(v, Target(v, DownIndex(v, v[i].identifier)))) == v[i].identifier
  {
    var v := Flatten(openSet, roots);
    MoveFromIndex(openSet, roots, v[i].identifier);
    MoveFromIndex(openSet, roots, v[i + 1].identifier);
  }

  /** Moving up and then down returns to the start, except from the first entry. */
  lemma UpThenDown(openSet: set<Id>, roots: seq<Node>, i: nat)
    requires 0 < i < |Flatten(openSet, roots)|
    ensures var v := Flatten(openSet, roots);
            Target(v, DownIndex(v, Target(v, UpIndex(v, v[i].identifier)))) == v[i].identifier
  {
    var v := Flatten(openSet, roots);
    MoveFromIndex(openSet, roots, v[i].identifier);
    MoveFromIndex(openSet, roots, v[i - 1].identifier);
  }

  /** `TreeState`: what is selected, what is opened, and the scroll offset. */
  class TreeState {
    var offset: nat
    var openSet: set<Id>
    var selected: Id

    /** The empty identifier is never opened. */
    ghost predicate Valid()
      reads this
    {
      [] !in openSet
    }

    /** The default state: nothing opened, nothing selected, no scrolling. */
    constructor()
      ensures Valid()
      ensures offset == 0 && openSet == {} && selected == []
    {
      offset := 0;
      openSet := {};
      selected := [];
    }

    /** Selects `id`; selecting nothing also resets the scroll offset. */
    method Select(id: Id)
      requires Valid()
      modifies this
      ensures Valid()
      ensures selected == id && openSet == old(openSet)
      ensures offset == if id == [] then 0 else old(offset)
    {
      selected := id;
      if selected == [] {
        offset := 0;
      }
    }

    /**
     * Opens `id`; reports whether it was closed before. The empty
     * identifier is never opened.
     */
    method Open(id: Id) returns (inserted: bool)
      requires Valid()
      modifies this
      ensures Valid()
      ensures inserted <==> id != [] && id !in old(openSet)
      ensures openSet == if id == [] then old(openSet) else old(openSet) + {id}
      ensures selected == old(selected) && offset == old(offset)
    {
      if id == [] {
        inserted := false;
      } else {
        inserted := id !in openSet;
        openSet := openSet + {id};
      }
    }

    /** Closes `id`; reports whether it was open before. */
    method Close(id: Id) returns (removed: bool)
      requires Valid()
      modifies this
      ensures Valid()
      ensures removed <==> id in old(openSet)
      ensures openSet == old(openSet) - {id}
      ensures selected == old(selected) && offset == old(offset)
    {
      removed := id in openSet;
      openSet := openSet - {id};
    }

    /** Closes `id` when it is open and opens it otherwise. */
    method Toggle(id: Id)
      requires Valid()
      modifies this
      ensures Valid()
      ensures id != [] ==> (id in openSet <==> id !in old(openSet))
      ensures id == [] ==> openSet == old(openSet)
      ensures forall other :: other != id ==> (other in openSet <==> other in old(openSet))
      ensures selected == old(selected) && offset == old(offset)
    {
      if id in openSet {
        var _ := Close(id);
      } else {
        var _ := Open(id);
      }
    }

    /** Toggles the selected identifier. */
    method ToggleSelected()
      requires Valid()
      modifies this
      ensures Valid()
      ensures selected != [] ==> (selected in openSet <==> selected !in old(openSet))
      ensures forall other :: other != selected ==> (other in openSet <==> other in old(openSet))
      ensures selected == old(selected) && offset == old(offset)
    {
      Toggle(selected);
    }

    /** Closes everything; the selection and the offset stay. */
    method CloseAll()
      requires Valid()
      modifies this
      ensures Valid()
      ensures openSet == {}
      ensures selected == old(selected) && offset == old(offset)
    {
      openSet := {};
    }

    /** Selects the first root. */
    method SelectFirst()
      requires Valid()
      modifies this
      ensures Valid()
      ensures selected == [0] && openSet == old(openSet) && offset == old(offset)
    {
      Select([0]);
    }

    /** Selects the last visible entry, or nothing on an empty forest. */
    method SelectLast(items: seq<Node>)
      requires Valid()
      modifies this
      ensures Valid()
      ensures var v := Flatten(old(openSet), items);
              selected == if v == [] then [] else v[|v| - 1].identifier
      ensures openSet == old(openSet)
      ensures offset == if selected == [] then 0 else old(offset)
    {
      var visible := Flatten(openSet, items);
      var newIdentifier := if visible == [] then [] else visible[|visible| - 1].identifier;
      Select(newIdentifier);
    }

    /** The up arrow: the previous visible entry, or the first one. */
    method KeyUp(items: seq<Node>)
      requires Valid()
      modifies this
      ensures Valid()
      ensures var v := Flatten(old(openSet), items);
              selected == Target(v, UpIndex(v, old(selected)))
      ensures openSet == old(openSet)
      ensures offset == if selected == [] then 0 else old(offset)
    {
      var visible := Flatten(openSet, items);
      var newIndex := UpIndex(visible, selected);
      Select(Target(visible, newIndex));
    }

    /** The down arrow: the next visible entry, or the first one. */
    method KeyDown(items: seq<Node>)
      requires Valid()
      modifies this
      ensures Valid()
      ensures var v := Flatten(old(openSet), items);
              selected == Target(v, DownIndex(v, old(selected)))
      ensures openSet == old(openSet)
      ensures offset == if selected == [] then 0 else old(offset)
    {
      var visible := Flatten(openSet, items);
      var newIndex := DownIndex(visible, selected);
      Select(Target(visible, newIndex));
    }

    /** The left arrow: closes the selection if it is open, else selects its parent. */
    method KeyLeft()
      requires Valid()
      modifies this
      ensures Valid()
      ensures old(selected) in old(openSet) ==>
                openSet == old(openSet) - {old(selected)} &&
                selected == old(selected) && offset == old(offset)
      ensures old(selected) !in old(openSet) ==>
                openSet == old(openSet) &&
                selected == GetWithoutLeaf(old(selected)).0 &&
                offset == (if selected == [] then 0 else old(offset))
    {
      var current := selected;
      var closed := Close(current);
      if !closed {
        var (head, _) := GetWithoutLeaf(current);
        Select(head);
      }
    }

    /** The right arrow: opens the selection. */
    method KeyRight()
      requires Valid()
      modifies this
      ensures Valid()
      ensures openSet == if selected == [] then old(openSet) else old(openSet) + {selected}
      ensures selected == old(selected) && offset == old(offset)
    {
      var _ := Open(selected);
    }
  }
}
