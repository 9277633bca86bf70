# tui-rs-tree-widget, modelled in Dafny

A model of the logic of the `tui-rs-tree-widget` crate, a terminal widget
that shows a forest of items as an indented, scrollable list with a single
selected entry, and the line composers it uses to lay text out in a fixed
width. Three parts are modelled.

- **Flattening** (`flatten.dfy`, with the crate's unit tests in
  `flatten_examples.dfy`). `Flatten` is the pre-order list of visible
  entries for a forest and a set of opened identifiers. An identifier is
  the path of child indices from the roots (`identifier.dfy`). A node
  (`tree.dfy`) is its lines of text and its children. The flattener is
  specified against an independent definition, `IsVisible`: every ancestor
  is opened. The list is proved to hold exactly the visible identifiers,
  each with the node it addresses, in strictly increasing pre-order. That
  determines it completely.
- **Navigation and rendering** (`navigation.dfy`, `render.dfy`).
  - `TreeState` is a class over the fields `offset`, `openSet` (the source's
    `opened`) and `selected`. It has the source's methods: open, close,
    toggle, select and the arrow keys. Each method states its whole new
    state and keeps the invariant that the empty identifier is never opened.
  - `ScrollWindow` is the window loop of `Tree::render`, over the heights of
    the visible entries. It is proved against `WindowSpec`, a statement of
    the window in terms of its inputs. `WindowSpec` is in turn proved to fit
    the height, end after the selection, and show the selection exactly when
    that entry fits.
  - `Render` is the state-changing part of rendering: the offset stored back
    and the entries painted.
  - `NodeMarker` chooses the marker in front of each node.
- **Line composers** (`symbols.dfy`, `word_wrap.dfy`, `truncate.dfy`).
  - A symbol is a styled grapheme. Its text and display width are given as
    data, as a sequence of graphemes so that its front can be cut off.
  - `WordWrapper` wraps on word boundaries. `Wrap` states what one logical
    line becomes, as a fold of `Step` over its symbols. `WrapLine` has the
    source's loop over one logical line, proved to compute that fold.
    `TakeLine` has the loop of `next_line`, proved to take the next line of
    the queue of pending output lines. With trimming on, no output line
    starts with whitespace (`TrimmedLinesStartWithWord`).
  - `LineTruncator` cuts each line to the width, with a horizontal offset
    for left-aligned lines. `TrimOffset` is `trim_offset`'s loop.

Where the code and the intended behaviour differ, the model follows the
code:

- The word wrapper does not bound its lines by the maximum width.
  `WordWrap.WrapCanExceedWidth` exhibits a line of width 3 at width 2. The
  comment at src/reflow.rs:131-135 ends a line once it is as wide as the
  maximum, or would be too long with the partial word added. That test is
  made before the symbol being read is counted, so a word that starts with
  a wide symbol joins a short line.
- A short logical line does not always come out unchanged. A line holding
  only whitespace becomes one empty line even without trimming
  (`WordWrap.WhitespaceOnlyLineIsBlank`, src/reflow.rs:176-178).
  `WordWrap.WrapUnbroken` proves the round trip for lines without whitespace.
- When the selected entry is taller than the area, the loop drops every
  entry. The window is then empty and the stored offset is one past the
  selection (`Render.WindowProperties`).

## Model

| member | source | states |
|---|---|---|
| Identifier.ChildIdentifier | src/flatten.rs:22-23 | a child's identifier is its parent's extended by exactly the child index |
| Identifier.GetWithoutLeaf | src/lib.rs:167 | splitting off the leaf index: no leaf exactly for the empty identifier, which stays empty; otherwise parent plus leaf rebuild the identifier |
| Identifier.WithoutLeafOfChild | src/lib.rs:166-168 | splitting a child's identifier gives back its parent and its index |
| Tree.AddressPrefix | src/flatten.rs:30-31 | every nonempty prefix of an address that resolves resolves too, to a node with children |
| Flattener.WalkSound | src/flatten.rs:19-36 | every entry produced under a parent lies below it, addresses the item it carries, and has all its ancestors below the parent opened |
| Flattener.WalkComplete | src/flatten.rs:19-36 | every descendant whose ancestors below the parent are opened is produced, with the item it addresses |
| Flattener.WalkSorted | src/flatten.rs:21-33 | the entries are produced in strictly increasing pre-order: a node before its children, children in index order |
| Flattener.FlattenSpec | src/flatten.rs:6-37 | the flattened list is sorted in pre-order and holds exactly the visible identifiers (every ancestor opened), each with the node it addresses |
| Flattener.SortedUnique | src/flatten.rs:21-33 | two strictly sorted lists with the same elements are equal |
| Flattener.FlattenUnique | src/flatten.rs:6-11 | the result depends only on which identifiers are visible |
| Flattener.OpeningWithoutEffect | src/flatten.rs:30-33 | opening an identifier that is not a visible node with children changes nothing |
| Flattener.FlattenDistinct | src/flatten.rs:21-28 | the listed identifiers are pairwise distinct |
| Flattener.WalkTopLevel | src/flatten.rs:21-33 | the top-level entries of the first `k` roots are exactly those roots, in order |
| Flattener.FlattenRoots | src/flatten.rs:21-33 | the top-level entries are every root at `[k]`, in order, whatever is opened; with nothing opened the list is exactly the roots; the list is empty exactly for an empty forest |
| Flattener.ChildrenShownIffOpened | src/flatten.rs:22-33 | a listed node's children are listed, at parent plus index, exactly when the node is opened |
| Flattener.FirstChildFollows | src/flatten.rs:25-33 | an entry is immediately followed by its first child exactly when it is opened and has children |
| FlattenExamples.NothingOpenedIsTopLevel | src/flatten.rs:75-86 | nothing opened: `a, b, h` |
| FlattenExamples.WrongOpenedIsOnlyTopLevel | src/flatten.rs:88-100 | opening a leaf and a node under a closed one: `a, b, h` |
| FlattenExamples.OneIsOpened | src/flatten.rs:102-114 | `[1]` opened: `a, b, c, d, g, h` |
| FlattenExamples.AllOpened | src/flatten.rs:116-128 | `[1]` and `[1, 1]` opened: `a` to `h` |
| Navigation.Position | src/lib.rs:131-133 | the index of the first entry with the identifier, or none when no entry has it |
| Navigation.MoveFromIndex | src/lib.rs:131-136 | found at `i`: up goes to `max(i-1, 0)`, down to `min(i+1, len-1)`; not found: both go to index 0 |
| Navigation.MoveStaysVisible | src/lib.rs:128-160 | on an empty forest both moves select nothing; otherwise both select a visible identifier |
| Navigation.DownThenUp | src/lib.rs:128-160 | down then up returns to the entry, except from the last one |
| Navigation.UpThenDown | src/lib.rs:128-160 | up then down returns to the entry, except from the first one |
| Navigation.TreeState.constructor | src/lib.rs:38-43 | the default state: offset 0, nothing opened, nothing selected |
| Navigation.TreeState.Select | src/lib.rs:61-71 | the selection becomes the identifier; the offset becomes 0 exactly when it is empty, else stays |
| Navigation.TreeState.Open | src/lib.rs:76-82 | reports true exactly when the identifier is nonempty and was closed; afterwards it is opened unless empty, nothing else changes |
| Navigation.TreeState.Close | src/lib.rs:87-89 | reports true exactly when the identifier was opened; afterwards it is not; nothing else changes |
| Navigation.TreeState.Toggle | src/lib.rs:93-99 | flips a nonempty identifier's membership and no other; the empty one is never opened |
| Navigation.TreeState.ToggleSelected | src/lib.rs:103-105 | toggles the selected identifier only |
| Navigation.TreeState.CloseAll | src/lib.rs:107-109 | nothing stays opened; selection and offset unchanged |
| Navigation.TreeState.SelectFirst | src/lib.rs:112-114 | selects `[0]`, offset unchanged |
| Navigation.TreeState.SelectLast | src/lib.rs:117-124 | selects the last visible entry, or nothing (offset 0) on an empty list |
| Navigation.TreeState.KeyUp | src/lib.rs:128-142 | selects the entry at the up index of the visible list |
| Navigation.TreeState.KeyDown | src/lib.rs:146-160 | selects the entry at the down index of the visible list |
| Navigation.TreeState.KeyLeft | src/lib.rs:164-170 | an opened selection is closed and stays selected; otherwise its parent is selected and nothing is closed |
| Navigation.TreeState.KeyRight | src/lib.rs:174-176 | opens the selection unless it is empty; selection and offset unchanged |
| Render.SumSplit | src/lib.rs:498-517 | the height of a range is the sum of the heights of its two parts |
| Render.GreedyEnd | src/lib.rs:501-508 | the window grown from `start`: it fits, and one more entry would not |
| Render.WindowProperties | src/lib.rs:498-519 | the window lies in the list, ends after the selection and fits the height; it contains the selection exactly when that entry fits; otherwise it is empty just after it |
| Render.WindowUnique | src/lib.rs:498-517 | the window is determined by heights, selection, offset and height |
| Render.GrowWindow | src/lib.rs:498-508 | the first loop grows the window to exactly the greedy end from its start, and reports its height |
| Render.ShrinkWindow | src/lib.rs:513-516 | the inner loop drops entries from the front until the window fits, no further than needed, and keeps the last entry when that alone fits |
| Render.ScrollWindow | src/lib.rs:498-517 | the loop computes the specified window, with its properties |
| Render.SelectedIndex | src/lib.rs:481-488 | a listed, nonempty selection gives the index of its first entry; an empty or unlisted selection gives 0; the index is always inside a nonempty list |
| Render.Render | src/lib.rs:457-519 | an empty area or list leaves the state alone; otherwise the offset becomes the window's start and the painted entries are the window's |
| Render.RenderedSelection | src/lib.rs:475-527 | a listed selection is among the painted entries exactly when its item fits the height |
| Render.MarkerMatchesList | src/lib.rs:572-578 | "no children" exactly for leaves, "open" exactly when the first child is listed next, "closed" exactly when there are children and none is listed |
| Symbols.SumWidthConcat | src/reflow.rs:69-75 | the width of joined runs is the sum of their widths |
| Symbols.Fitting | src/reflow.rs:99-102 | the symbols kept are input symbols no wider than the maximum, and no more of them than the input has |
| Symbols.FittingKeepsAll | src/reflow.rs:99-102 | every input symbol no wider than the maximum is kept, and the kept ones are an in-order subsequence of the input |
| Symbols.SubseqTrans | src/reflow.rs:104-186 | order-preserving selection composes |
| WordWrap.DropSpaces | src/reflow.rs:143-155 | what is left of the pending whitespace is a suffix of it, and nothing is left when it is used up |
| WordWrap.PopSpaces | src/reflow.rs:145-155 | the popping loop drops whitespace as specified and keeps the width of what is left |
| WordWrap.Finish | src/reflow.rs:175-190 | the end of a logical line always gives at least one line |
| WordWrap.PlacePending | src/reflow.rs:104-129 | the pending word joins the line exactly under the source's four conditions, with the widths kept |
| WordWrap.EndLineIfFull | src/reflow.rs:131-161 | the line is finished exactly when full, the whitespace after it dropped as specified |
| WordWrap.ReadSymbol | src/reflow.rs:95-173 | one iteration of the loop performs one step of the fold |
| WordWrap.WrapLine | src/reflow.rs:85-190 | the loop computes the specified output lines of one logical line |
| WordWrap.FoldInOrder | src/reflow.rs:95-173 | the buffers always hold the symbols read so far, narrower ones only, in order |
| WordWrap.StepInOrder | src/reflow.rs:95-173 | reading one symbol keeps the buffers an in-order subsequence of the fitting symbols read |
| WordWrap.FinishInOrder | src/reflow.rs:175-190 | emptying the buffers at the end of a logical line keeps that order |
| WordWrap.WrapKeepsOrder | src/reflow.rs:104-186 | the output lines, joined, are an in-order subsequence of the input's fitting symbols |
| WordWrap.WrapSymbolsFit | src/reflow.rs:99-102 | every output symbol is an input symbol no wider than the maximum |
| WordWrap.WrapUnbroken | src/reflow.rs:104-190 | a line without whitespace that fits comes out as exactly one line equal to it |
| WordWrap.NoBreakSpaceNotWhitespace | src/reflow.rs:96-97 | a single no-break space, of any width, is not whitespace |
| WordWrap.NoBreakSpaceJoins | src/reflow.rs:96-135 | a line whose symbols are each a word symbol or a no-break space comes out as exactly one line equal to it when it fits: no-break spaces do not separate words |
| WordWrap.StepKeepsTrimmed | src/reflow.rs:104-161 | with trimming, reading a symbol keeps the pending word free of whitespace and the current and finished lines empty or starting with a word symbol |
| WordWrap.FoldKeepsTrimmed | src/reflow.rs:95-173 | with trimming, after any prefix of the logical line the pending word holds no whitespace and the current and finished lines are empty or start with a word symbol |
| WordWrap.TrimmedLinesStartWithWord | src/reflow.rs:104-190 | with trimming (the flag that removes leading whitespace, src/reflow.rs:32), every output line is empty or starts with a symbol that is not whitespace |
| WordWrap.WhitespaceOnlyLineIsBlank | src/reflow.rs:176-190 | a line of only a space comes out as one empty line |
| WordWrap.WrapCanExceedWidth | src/reflow.rs:104-161 | a line of width 3 comes out at maximum width 2 |
| WordWrap.WrapAllLines | src/reflow.rs:176-192 | every logical line gives at least one output line; an empty one gives exactly one empty line with its alignment |
| WordWrap.WrapAllFits | src/reflow.rs:69-102 | every output line reports its symbols' width and holds no symbol wider than the maximum |
| WordWrap.QueuePop | src/reflow.rs:69-77 | taking the next prepared wrapped line yields it with its width and the current alignment, and leaves the rest queued |
| WordWrap.QueueRefill | src/reflow.rs:79-192 | with no prepared line left, the queue is the next logical line's wrapped lines under that line's alignment, then the rest |
| WordWrap.QueueDone | src/reflow.rs:193-196 | with no prepared line left and no input, nothing is pending |
| WordWrap.TakeLine | src/reflow.rs:62-198 | the loop yields the head of the pending lines with its width and leaves exactly the rest pending; it yields none exactly when nothing is pending |
| WordWrap.WordWrapper.constructor | src/reflow.rs:41-50 | nothing buffered, alignment left, all lines pending |
| WordWrap.WordWrapper.NextLine | src/reflow.rs:58-206 | width zero: none, nothing changes; otherwise the next pending line, or none when all are used up |
| Truncate.TrimStartSpec | src/reflow.rs:308-320 | the cut graphemes are the longest leading run whose width stays within the offset |
| Truncate.Trimmed | src/reflow.rs:308-320 | trimming keeps a suffix of the graphemes |
| Truncate.TrimmedWidth | src/reflow.rs:279-283 | trimming keeps at most the symbol's width, at least what lies beyond the offset, and something when the symbol reaches past it |
| Truncate.TrimOffset | src/reflow.rs:308-320 | the loop computes the specified trimmed symbol |
| Truncate.StepFacts | src/reflow.rs:266-290 | a symbol is skipped exactly when wider than the line and ends it exactly when it fits but not after the used width; a pushed symbol is a front-trimmed suffix no wider than the input, counted into the width; unscrolled it is the whole symbol; scrolled, it is empty and the offset shrinks by its width when it lies within the offset, and it is trimmed and the offset used up when it straddles the offset |
| Truncate.TruncateSymbol | src/reflow.rs:266-290 | one pass of the loop body performs the specified step |
| Truncate.TruncateLoopStep | src/reflow.rs:265-291 | every pass keeps the symbols pushed so far, followed by the output of the symbols still to read, equal to the whole output line |
| Truncate.TruncateFits | src/reflow.rs:266-290 | the output line is never wider than the maximum |
| Truncate.TruncateSymbolsFit | src/reflow.rs:266-269 | no output symbol is wider than the maximum |
| Truncate.TruncateUnscrolled | src/reflow.rs:265-291 | unscrolled, the output is the longest prefix of the fitting symbols that fits the line |
| Truncate.OffsetOnlyScrollsLeft | src/reflow.rs:276 | a line that is not left-aligned ignores the offset |
| Truncate.TruncateScrolled | src/reflow.rs:276-290 | scrolled, each output symbol is what remains of the matching fitting symbol |
| Truncate.ScrolledExactFrom | src/reflow.rs:265-291 | scrolled from any running width and offset, each output symbol is what the offset leaves of the matching fitting symbol at its column, and the line ends early only at a fitting symbol that would overflow it |
| Truncate.ScrolledLine | src/reflow.rs:265-291 | a left-aligned line scrolled by `k` from width 0: each output symbol is the matching fitting symbol cut at column `k`; an early end only at a symbol that takes the line past the width |
| Truncate.ScrolledInside | src/reflow.rs:283-287 | scrolled by `k`, a fitting symbol wholly within the first `k` columns comes out empty |
| Truncate.ScrolledStraddle | src/reflow.rs:279-283 | scrolled by `k`, a fitting symbol that straddles column `k` comes out trimmed by what lies before `k` |
| Truncate.ScrolledAfter | src/reflow.rs:276-290 | scrolled by `k`, a fitting symbol that starts at or after column `k` comes out whole |
| Truncate.ScrolledPastEnd | src/reflow.rs:284-287 | scrolled beyond all columns, every fitting symbol comes out empty |
| Truncate.LineTruncator.constructor | src/reflow.rs:231-238 | no offset, no line, all lines pending |
| Truncate.LineTruncator.SetHorizontalOffset | src/reflow.rs:240-242 | only the offset changes |
| Truncate.LineTruncator.NextLine | src/reflow.rs:250-303 | width zero: none, nothing changes; otherwise exactly one line per logical line, with its width and alignment, none once they are used up; the offset field is kept |

## Left out

- Machine integers: the widths and counters are `u16` and `usize` in the source. The model uses unbounded naturals. So it does not capture `as u16` truncation of widths, `u16` overflow of the running widths, or the saturating add in the window loop (src/lib.rs:511). That add saturates only when one entry's number of lines comes within 65535 of `usize::MAX`, whether or not that entry fits the area.
- Unicode: grapheme segmentation, display width and `char::is_whitespace` come from foreign crates, so each grapheme carries its text and width as data. `Symbols.IsWhitespaceChar` lists the White_Space characters.
- `Truncate.TrimOffset` returns the graphemes from an index on. The source returns a byte slice from a byte offset. Both denote the same suffix.
- Styles, the highlight symbol, indentation, `Corner`, `Block` and every buffer call in `Tree::render` (src/lib.rs:448-456, 521-598) are painting, which is not modelled. `Render.Render` returns the list of painted entries in their place.
- The `wrap` option in `Tree::render` (src/lib.rs:490-496) calls `TreeItem::wrap`, whose body is empty (src/lib.rs:249-278), so it has no effect and is left out. `TreeItem::lines` (src/lib.rs:289-303) does not compile and is not part of this model.
- `TreeItem::height` (src/lib.rs:281-283) is `Tree.Height`, the number of lines of a node. It has no contract of its own; `Render.Render` carries it, through the heights its window is stated over.
- `src/identifier.rs` is not part of this model. `Identifier.GetWithoutLeaf` drops the last index, and the empty identifier stays empty.
- `Rc<RefCell<…>>` sharing of items: the flattener and the navigation only read items, so nodes are values.
- The getters `get_offset`, `get_all_opened` and `selected` (src/lib.rs:47-59) are the class fields themselves. Listing the opened set in `HashSet` iteration order does not matter, because the flattener only tests membership.
- The `Tree` builder setters (src/lib.rs:367-441), `src/wrap.rs` and the example programs are not logic of the core.
- `WordWrap.WordWrapper.NextLine`: the source keeps the remaining wrapped lines in a vector iterator and the remaining input in an iterator. The model keeps both as sequences, drained from the front.
