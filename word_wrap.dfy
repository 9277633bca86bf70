/**
 * The word wrapper: packs the symbols of each logical line into output
 * lines of at most `maxLineWidth` columns, breaking between words, with
 * optional trimming of the whitespace that would start a line.
 *
 * `Wrap` states what one logical line becomes, as a fold of `Step` over its
 * symbols followed by `Finish`; `WrapLine` is the loop that computes it, and
 * `WordWrapper` is the composer that hands the results out line by line.
 */
module WordWrap {
  import opened Wrappers
  import opened Symbols

  /**
   * The wrapper's buffers between two symbols: the finished lines, the line
   * being filled, the trailing whitespace not yet placed, the word being
   * read, and whether the last symbol read was part of a word.
   */
  datatype WrapState = WrapState(wrapped: seq<seq<Sym>>, line: seq<Sym>, spaces: seq<Sym>, word: seq<Sym>, seenWord: bool)

  const Start := WrapState([], [], [], [], false)

  /** Whether the pending whitespace and word go onto the line before `s` (of width `w`) is read. */
  predicate PlaceWordFirst(st: WrapState, whitespace: bool, w: nat, max: nat, trim: bool)
  {
    || (st.seenWord && whitespace)
    || (SumWidth(st.word) + w > max && st.line == [] && trim)
    || (SumWidth(st.spaces) + w > max && st.line == [] && trim)
    || (SumWidth(st.word) + SumWidth(st.spaces) + w > max && st.line == [] && !trim)
  }

  /** The pending word joins the line, after the pending whitespace unless that is trimmed. */
  function PlaceWord(st: WrapState, trim: bool): WrapState
  {
    st.(line := st.line + (if st.line != [] || !trim then st.spaces else []) + st.word, spaces := [], word := [])
  }

  /** Whether the line is finished before a symbol of width `w` is read. */
  predicate LineFull(st: WrapState, w: nat, max: nat)
  {
    SumWidth(st.line) >= max || (SumWidth(st.line) + SumWidth(st.spaces) + SumWidth(st.word) >= max && w > 0)
  }

  /**
   * Drops the leading whitespace that still fits in `remaining` columns,
   * and the first one that does not; reports whether all were dropped.
   */
  function DropSpaces(spaces: seq<Sym>, remaining: nat): (r: (seq<Sym>, bool))
    ensures |r.0| <= |spaces| && r.0 == spaces[|spaces| - |r.0|..]
    ensures r.1 ==> r.0 == []
    decreases |spaces|
  {
    if spaces == [] then ([], true)
    else if Width(spaces[0]) > remaining then (spaces[1..], false)
    else DropSpaces(spaces[1..], remaining - Width(spaces[0]))
  }

  /** The line is finished and the whitespace after it dropped as far as it would have fit. */
  function EndLine(st: WrapState, max: nat): (WrapState, bool)
  {
    var remaining := if SumWidth(st.line) <= max then max - SumWidth(st.line) else 0;
    var dropped := DropSpaces(st.spaces, remaining);
    (st.(wrapped := st.wrapped + [st.line], line := [], spaces := dropped.0), dropped.1)
  }

  /** The symbol joins the pending whitespace or the pending word. */
  function Append(st: WrapState, s: Sym, whitespace: bool): WrapState
  {
    if whitespace then st.(spaces := st.spaces + [s], seenWord := false)
    else st.(word := st.word + [s], seenWord := true)
  }

  /** Reading one symbol. */
  function Step(st: WrapState, s: Sym, max: nat, trim: bool): WrapState
  {
    var whitespace := IsWhitespace(s);
    var w := Width(s);
    if w > max then st
    else
      var placed := if PlaceWordFirst(st, whitespace, w, max, trim) then PlaceWord(st, trim) else st;
      if LineFull(placed, w, max) then
        var ended := EndLine(placed, max);
        if whitespace && ended.1 then ended.0 else Append(ended.0, s, whitespace)
      else Append(placed, s, whitespace)
  }

  /** The buffers after reading `syms`. */
  function Fold(syms: seq<Sym>, max: nat, trim: bool): WrapState
    decreases |syms|
  {
    if syms == [] then Start
    else Step(Fold(syms[..|syms| - 1], max, trim), syms[|syms| - 1], max, trim)
  }

  /** The lines once the logical line is read to its end: never none. */
  function Finish(st: WrapState, trim: bool): (r: seq<seq<Sym>>)
    ensures |r| >= 1
  {
    var wrappedLine :=
      if st.word == [] && st.spaces == [] then (st.wrapped, st.line)
      else if st.line == [] && st.word == [] then (st.wrapped + [[]], st.line)
      else if !trim || st.line != [] then (st.wrapped, st.line + st.spaces + st.word)
      else (st.wrapped, st.line + st.word);
    var lines := if wrappedLine.1 != [] then wrappedLine.0 + [wrappedLine.1] else wrappedLine.0;
    if lines == [] then [[]] else lines
  }

  /** The output lines of one logical line. */
  function Wrap(syms: seq<Sym>, max: nat, trim: bool): seq<seq<Sym>>
  {
    Finish(Fold(syms, max, trim), trim)
  }

  /**
   * Pops whitespace from the front of `spaces` while it fits in `remaining`
   * columns; the first one that does not fit is popped as well.
   */
  method PopSpaces(spaces: seq<Sym>, spaceWidth: nat, remaining: nat)
    returns (rest: seq<Sym>, restWidth: nat, exhausted: bool)
    requires spaceWidth == SumWidth(spaces)
    ensures (rest, exhausted) == DropSpaces(spaces, remaining)
    ensures restWidth == SumWidth(rest)
  {
    rest, restWidth := spaces, spaceWidth;
    var left := remaining;
    var first: Option<Sym> := None;
    if rest != [] {
      first := Some(rest[0]);
      rest := rest[1..];
    }
    while first.Some?
      invariant first.None? ==> rest == []
      invariant DropSpaces(spaces, remaining) == DropSpaces((if first.Some? then [first.value] else []) + rest, left)
      invariant restWidth == SumWidth(rest) + (if first.Some? then Width(first.value) else 0)
      decreases |rest|, if first.Some? then 1 else 0
    {
      var w := Width(first.value);
      restWidth := restWidth - w;
      assert ([first.value] + rest)[1..] == rest;
      if w > left {
        break;
      }
      left := left - w;
      if rest == [] {
        first := None;
      } else {
        first := Some(rest[0]);
        rest := rest[1..];
      }
    }
    exhausted := first.None?;
  }

  lemma EndLineBy(st: WrapState, max: nat, remaining: nat, rest: seq<Sym>, exhausted: bool)
    requires remaining == if SumWidth(st.line) <= max then max - SumWidth(st.line) else 0
    requires (rest, exhausted) == DropSpaces(st.spaces, remaining)
    ensures EndLine(st, max) == (WrapState(st.wrapped + [st.line], [], rest, st.word, st.seenWord), exhausted)
  {
  }

  /**
   * Before a symbol of width `w` is read: the pending word joins the line
   * when the symbol ends it or when it would overflow an empty line.
   */
  method PlacePending(st: WrapState, lineWidth: nat, spaceWidth: nat, wordWidth: nat,
                      whitespace: bool, w: nat, max: nat, trim: bool)
    returns (placed: WrapState, lineWidth': nat, spaceWidth': nat, wordWidth': nat)
    requires lineWidth == SumWidth(st.line) && spaceWidth == SumWidth(st.spaces) && wordWidth == SumWidth(st.word)
    ensures placed == if PlaceWordFirst(st, whitespace, w, max, trim) then PlaceWord(st, trim) else st
    ensures lineWidth' == SumWidth(placed.line) && spaceWidth' == SumWidth(placed.spaces) && wordWidth' == SumWidth(placed.word)
  {
    placed, lineWidth', spaceWidth', wordWidth' := st, lineWidth, spaceWidth, wordWidth;
    if || (st.seenWord && whitespace)
       || (wordWidth + w > max && st.line == [] && trim)
       || (spaceWidth + w > max && st.line == [] && trim)
       || (wordWidth + spaceWidth + w > max && st.line == [] && !trim)
    {
      var line := st.line;
      lineWidth' := lineWidth;
      if line != [] || !trim {
        SumWidthConcat(line, st.spaces);
        line := line + st.spaces;
        lineWidth' := lineWidth' + spaceWidth;
      }
      SumWidthConcat(line, st.word);
      line := line + st.word;
      lineWidth' := lineWidth' + wordWidth;
      placed := st.(line := line, spaces := [], word := []);
      spaceWidth' := 0;
      wordWidth' := 0;
    }
  }

  /**
   * Finishes the line when it is full, dropping the whitespace after it as
   * far as it would have fitted; reports whether that whitespace ran out.
   */
  method EndLineIfFull(placed: WrapState, lineWidth: nat, spaceWidth: nat, wordWidth: nat, w: nat, max: nat)
    returns (base: WrapState, lineWidth': nat, spaceWidth': nat, full: bool, exhausted: bool)
    requires lineWidth == SumWidth(placed.line) && spaceWidth == SumWidth(placed.spaces) && wordWidth == SumWidth(placed.word)
    ensures full == LineFull(placed, w, max)
    ensures full ==> (base, exhausted) == EndLine(placed, max)
    ensures !full ==> base == placed
    ensures lineWidth' == SumWidth(base.line) && spaceWidth' == SumWidth(base.spaces)
  {
    base, lineWidth', spaceWidth', exhausted := placed, lineWidth, spaceWidth, false;
    full := lineWidth >= max || (lineWidth + spaceWidth + wordWidth >= max && w > 0);
    if full {
      var remaining: nat := if lineWidth <= max then max - lineWidth else 0;
      var rest;
      rest, spaceWidth', exhausted := PopSpaces(placed.spaces, spaceWidth, remaining);
      EndLineBy(placed, max, remaining, rest, exhausted);
      base := WrapState(placed.wrapped + [placed.line], [], rest, placed.word, placed.seenWord);
      lineWidth' := 0;
    }
  }

  /** Reading one symbol: the body of the loop over a logical line's symbols. */
  method ReadSymbol(st: WrapState, lineWidth: nat, spaceWidth: nat, wordWidth: nat, s: Sym, max: nat, trim: bool)
    returns (st': WrapState, lineWidth': nat, spaceWidth': nat, wordWidth': nat)
    requires lineWidth == SumWidth(st.line) && spaceWidth == SumWidth(st.spaces) && wordWidth == SumWidth(st.word)
    ensures st' == Step(st, s, max, trim)
    ensures lineWidth' == SumWidth(st'.line) && spaceWidth' == SumWidth(st'.spaces) && wordWidth' == SumWidth(st'.word)
  {
    var whitespace := IsWhitespace(s);
    var w := Width(s);
    if w > max {
      return st, lineWidth, spaceWidth, wordWidth;
    }
    var placed;
    placed, lineWidth', spaceWidth', wordWidth' := PlacePending(st, lineWidth, spaceWidth, wordWidth, whitespace, w, max, trim);
    var full, exhausted;
    st', lineWidth', spaceWidth', full, exhausted := EndLineIfFull(placed, lineWidth', spaceWidth', wordWidth', w, max);
    if full && whitespace && exhausted {
      return;
    }
    if whitespace {
      SumWidthConcat(st'.spaces, [s]);
      spaceWidth' := spaceWidth' + w;
      st' := st'.(spaces := st'.spaces + [s], seenWord := false);
    } else {
      SumWidthConcat(st'.word, [s]);
      wordWidth' := wordWidth' + w;
      st' := st'.(word := st'.word + [s], seenWord := true);
    }
  }

  /** Wrapping one logical line: the loop over its symbols, then the remainder. */
  method WrapLine(syms: seq<Sym>, max: nat, trim: bool) returns (wrapped: seq<seq<Sym>>)
    ensures wrapped == Wrap(syms, max, trim)
  {
    var st := Start;
    var lineWidth, spaceWidth, wordWidth := 0, 0, 0;
    for i := 0 to |syms|
      invariant st == Fold(syms[..i], max, trim)
      invariant lineWidth == SumWidth(st.line) && spaceWidth == SumWidth(st.spaces) && wordWidth == SumWidth(st.word)
    {
      assert syms[..i + 1][..i] == syms[..i];
      st, lineWidth, spaceWidth, wordWidth := ReadSymbol(st, lineWidth, spaceWidth, wordWidth, syms[i], max, trim);
    }
    assert syms[..|syms|] == syms;
    wrapped := st.wrapped;
    var line := st.line;
    if st.word != [] || st.spaces != [] {
      if line == [] && st.word == [] {
        wrapped := wrapped + [[]];
      } else if !trim || line != [] {
        line := line + st.spaces;
      }
      line := line + st.word;
    }
    if line != [] {
      wrapped := wrapped + [line];
    }
    if wrapped == [] {
      wrapped := [[]];
    }
  }

  /** Everything the buffers hold, in the order it will be output. */
  function Held(st: WrapState): seq<Sym>
  {
    Concat(st.wrapped) + st.line + st.spaces + st.word
  }

  /** What reading keeps true: the buffers hold a subsequence of the fitting symbols read. */
  ghost predicate InOrder(st: WrapState, read: seq<Sym>, max: nat)
  {
    Subseq(Held(st), Fitting(read, max)) && (st.word != [] ==> st.seenWord)
  }

  lemma DropMiddle(p: seq<Sym>, q: seq<Sym>, q': seq<Sym>, r: seq<Sym>)
    requires Subseq(q', q)
    ensures Subseq(p + q' + r, p + q + r)
  {
    SubseqRefl(p);
    SubseqRefl(r);
    SubseqConcat(p, p, q', q);
    SubseqConcat(p + q', p + q, r, r);
  }

  lemma {:induction false} SuffixSubseq(q: seq<Sym>, k: nat)
    requires k <= |q|
    ensures Subseq(q[k..], q)
    decreases |q|
  {
    if k < |q| {
      var q' := q[..|q| - 1];
      SuffixSubseq(q', k);
      assert q[k..][..|q[k..]| - 1] == q'[k..];
    }
  }

  lemma HeldAfterPlace(st: WrapState, trim: bool)
    ensures Held(PlaceWord(st, trim)) ==
            Concat(st.wrapped) + st.line + (if st.line != [] || !trim then st.spaces else []) + st.word
  {
    var kept := if st.line != [] || !trim then st.spaces else [];
    var placed := PlaceWord(st, trim);
    var c := Concat(st.wrapped);
    assert Held(placed) == c + placed.line + [] + [];
    assert c + placed.line + [] + [] == c + placed.line;
    assert c + placed.line == c + st.line + kept + st.word;
  }

  /** Placing the pending word keeps the order, whether or not the whitespace is trimmed. */
  lemma PlaceInOrder(st: WrapState, read: seq<Sym>, max: nat, trim: bool)
    requires InOrder(st, read, max)
    ensures InOrder(PlaceWord(st, trim), read, max)
  {
    var kept := if st.line != [] || !trim then st.spaces else [];
    if kept == [] {
      SubseqEmpty(st.spaces);
    } else {
      SubseqRefl(st.spaces);
    }
    DropMiddle(Concat(st.wrapped) + st.line, st.spaces, kept, st.word);
    HeldAfterPlace(st, trim);
    SubseqTrans(Held(PlaceWord(st, trim)), Held(st), Fitting(read, max));
  }

  lemma HeldAfterEndLine(st: WrapState, max: nat)
    ensures Held(EndLine(st, max).0) == Concat(st.wrapped) + st.line + EndLine(st, max).0.spaces + st.word
  {
    ConcatSnoc(st.wrapped, st.line);
  }

  /** Ending the line keeps the order: it only drops whitespace. */
  lemma EndLineInOrder(st: WrapState, read: seq<Sym>, max: nat)
    requires InOrder(st, read, max)
    ensures InOrder(EndLine(st, max).0, read, max)
  {
    var ended := EndLine(st, max).0;
    var rest := ended.spaces;
    SuffixSubseq(st.spaces, |st.spaces| - |rest|);
    DropMiddle(Concat(st.wrapped) + st.line, st.spaces, rest, st.word);
    HeldAfterEndLine(st, max);
    SubseqTrans(Held(ended), Held(st), Fitting(read, max));
  }

  lemma HeldAfterAppend(st: WrapState, s: Sym, whitespace: bool)
    requires whitespace ==> st.word == []
    ensures Held(Append(st, s, whitespace)) == Held(st) + [s]
  {
    var c := Concat(st.wrapped);
    if whitespace {
      assert Held(Append(st, s, whitespace)) == c + st.line + (st.spaces + [s]) + [];
      assert Held(st) == c + st.line + st.spaces + [];
    } else {
      assert Held(Append(st, s, whitespace)) == c + st.line + st.spaces + (st.word + [s]);
    }
  }

  /** Reading a symbol that fits adds it to the end of the fitting symbols read. */
  lemma FittingSnoc(read: seq<Sym>, s: Sym, max: nat)
    requires Width(s) <= max
    ensures Fitting(read + [s], max) == Fitting(read, max) + [s]
  {
    FittingConcat(read, [s], max);
    assert [s][1..] == [];
  }

  /** Buffering a symbol keeps the order: whitespace is only buffered when no word is pending. */
  lemma AppendInOrder(st: WrapState, read: seq<Sym>, s: Sym, whitespace: bool, max: nat)
    requires InOrder(st, read, max)
    requires whitespace ==> st.word == []
    ensures InOrder(Append(st, s, whitespace), read + [s], max) || Width(s) > max
  {
    if Width(s) <= max {
      FittingSnoc(read, s, max);
      HeldAfterAppend(st, s, whitespace);
      SubseqRefl([s]);
      SubseqConcat(Held(st), Fitting(read, max), [s], [s]);
    }
  }

  /** Dropping a whitespace symbol that is read keeps the order. */
  lemma DropInOrder(st: WrapState, read: seq<Sym>, s: Sym, max: nat)
    requires InOrder(st, read, max) && Width(s) <= max
    ensures InOrder(st, read + [s], max)
  {
    FittingSnoc(read, s, max);
    SubseqAppendRight(Held(st), Fitting(read, max), s);
  }

  /** The buffers once the pending word is placed, if it goes before `s`. */
  function Placed(st: WrapState, s: Sym, max: nat, trim: bool): WrapState
  {
    if PlaceWordFirst(st, IsWhitespace(s), Width(s), max, trim) then PlaceWord(st, trim) else st
  }

  /** The buffers once `s` is read after the placing stage. */
  function AfterPlace(placed: WrapState, s: Sym, max: nat): WrapState
  {
    if LineFull(placed, Width(s), max) then
      var ended := EndLine(placed, max);
      if IsWhitespace(s) && ended.1 then ended.0 else Append(ended.0, s, IsWhitespace(s))
    else Append(placed, s, IsWhitespace(s))
  }

  lemma StepStages(st: WrapState, s: Sym, max: nat, trim: bool)
    requires Width(s) <= max
    ensures Step(st, s, max, trim) == AfterPlace(Placed(st, s, max, trim), s, max)
  {
  }

  /** Placing keeps the order, and leaves no word pending before whitespace. */
  lemma PlacedInOrder(st: WrapState, read: seq<Sym>, s: Sym, max: nat, trim: bool)
    requires InOrder(st, read, max)
    ensures InOrder(Placed(st, s, max, trim), read, max)
    ensures IsWhitespace(s) ==> Placed(st, s, max, trim).word == []
  {
    if PlaceWordFirst(st, IsWhitespace(s), Width(s), max, trim) {
      PlaceInOrder(st, read, max, trim);
    }
  }

  lemma AfterPlaceInOrder(placed: WrapState, read: seq<Sym>, s: Sym, max: nat)
    requires InOrder(placed, read, max) && Width(s) <= max
    requires IsWhitespace(s) ==> placed.word == []
    ensures InOrder(AfterPlace(placed, s, max), read + [s], max)
  {
    if LineFull(placed, Width(s), max) {
      var ended := EndLine(placed, max);
      EndLineInOrder(placed, read, max);
      if IsWhitespace(s) && ended.1 {
        DropInOrder(ended.0, read, s, max);
      } else {
        AppendInOrder(ended.0, read, s, IsWhitespace(s), max);
      }
    } else {
      AppendInOrder(placed, read, s, IsWhitespace(s), max);
    }
  }

  lemma StepInOrder(st: WrapState, read: seq<Sym>, s: Sym, max: nat, trim: bool)
    requires InOrder(st, read, max)
    ensures InOrder(Step(st, s, max, trim), read + [s], max)
  {
    if Width(s) > max {
      FittingConcat(read, [s], max);
      assert [s][1..] == [];
      assert Fitting(read + [s], max) == Fitting(read, max) + [];
      assert Fitting(read, max) + [] == Fitting(read, max);
    } else {
      StepStages(st, s, max, trim);
      PlacedInOrder(st, read, s, max, trim);
      AfterPlaceInOrder(Placed(st, s, max, trim), read, s, max);
    }
  }

  lemma {:induction false} FoldInOrder(syms: seq<Sym>, max: nat, trim: bool)
    ensures InOrder(Fold(syms, max, trim), syms, max)
    decreases |syms|
  {
    if syms == [] {
      SubseqEmpty([]);
    } else {
      var init := syms[..|syms| - 1];
      FoldInOrder(init, max, trim);
      StepInOrder(Fold(init, max, trim), init, syms[|syms| - 1], max, trim);
      assert init + [syms[|syms| - 1]] == syms;
    }
  }

  lemma ConcatSnoc(lines: seq<seq<Sym>>, l: seq<Sym>)
    ensures Concat(lines + [l]) == Concat(lines) + l
  {
    assert (lines + [l])[..|lines|] == lines;
  }

  /** The three ways a logical line ends, as the source's cases. */
  lemma FinishShape(st: WrapState, trim: bool)
    ensures st.word == [] && st.spaces == [] ==>
              Finish(st, trim) == if st.line != [] then st.wrapped + [st.line]
                                  else if st.wrapped == [] then [[]] else st.wrapped
    ensures !(st.word == [] && st.spaces == []) && st.line == [] && st.word == [] ==>
              Finish(st, trim) == st.wrapped + [[]]
    ensures !(st.word == [] && st.spaces == []) && !(st.line == [] && st.word == []) ==>
              Finish(st, trim) == st.wrapped + [if !trim || st.line != [] then st.line + st.spaces + st.word
                                                else st.line + st.word]
  {
  }

  lemma FinishQuietInOrder(wrapped: seq<seq<Sym>>, line: seq<Sym>)
    ensures Subseq(Concat(if line != [] then wrapped + [line] else if wrapped == [] then [[]] else wrapped),
                   Concat(wrapped) + line)
  {
    var c := Concat(wrapped);
    if line != [] {
      ConcatSnoc(wrapped, line);
      SubseqRefl(c + line);
    } else {
      assert c + line == c;
      if wrapped == [] {
        assert Concat([[]]) == Concat([]) + [];
        SubseqEmpty(c + line);
      } else {
        SubseqRefl(c);
      }
    }
  }

  lemma FinishBlankInOrder(wrapped: seq<seq<Sym>>, spaces: seq<Sym>)
    ensures Subseq(Concat(wrapped + [[]]), Concat(wrapped) + spaces)
  {
    var c := Concat(wrapped);
    ConcatSnoc(wrapped, []);
    assert c + [] == c;
    SubseqRefl(c);
    SubseqEmpty(spaces);
    SubseqConcat(c, c, [], spaces);
  }

  lemma FinishKeepInOrder(wrapped: seq<seq<Sym>>, line: seq<Sym>, spaces: seq<Sym>, word: seq<Sym>)
    ensures Subseq(Concat(wrapped + [line + spaces + word]), Concat(wrapped) + line + spaces + word)
  {
    var c := Concat(wrapped);
    ConcatSnoc(wrapped, line + spaces + word);
    assert c + (line + spaces + word) == c + line + spaces + word;
    SubseqRefl(c + line + spaces + word);
  }

  lemma FinishTrimInOrder(wrapped: seq<seq<Sym>>, line: seq<Sym>, spaces: seq<Sym>, word: seq<Sym>)
    ensures Subseq(Concat(wrapped + [line + word]), Concat(wrapped) + line + spaces + word)
  {
    var c := Concat(wrapped);
    ConcatSnoc(wrapped, line + word);
    SubseqEmpty(spaces);
    DropMiddle(c + line, spaces, [], word);
    assert c + line + [] + word == c + (line + word);
  }

  /** Emptying the buffers at the end of the logical line keeps the order. */
  lemma FinishInOrder(st: WrapState, trim: bool)
    ensures Subseq(Concat(Finish(st, trim)), Held(st))
  {
    FinishShape(st, trim);
    if st.word == [] && st.spaces == [] {
      FinishQuietInOrder(st.wrapped, st.line);
      assert Held(st) == Concat(st.wrapped) + st.line + [] + [];
      assert Concat(st.wrapped) + st.line + [] + [] == Concat(st.wrapped) + st.line;
    } else if st.line == [] && st.word == [] {
      FinishBlankInOrder(st.wrapped, st.spaces);
      assert Held(st) == Concat(st.wrapped) + [] + st.spaces + [];
      assert Concat(st.wrapped) + [] + st.spaces + [] == Concat(st.wrapped) + st.spaces;
    } else {
      if !trim || st.line != [] {
        FinishKeepInOrder(st.wrapped, st.line, st.spaces, st.word);
      } else {
        FinishTrimInOrder(st.wrapped, st.line, st.spaces, st.word);
      }
    }
  }

  /**
   * Wrapping neither reorders nor invents symbols: the output lines, joined,
   * are the symbols of the logical line that fit the width, some of them
   * (whitespace at line breaks) left out.
   */
  lemma WrapKeepsOrder(syms: seq<Sym>, max: nat, trim: bool)
    ensures Subseq(Concat(Wrap(syms, max, trim)), Fitting(syms, max))
  {
    FoldInOrder(syms, max, trim);
    FinishInOrder(Fold(syms, max, trim), trim);
    SubseqTrans(Concat(Wrap(syms, max, trim)), Held(Fold(syms, max, trim)), Fitting(syms, max));
  }

  lemma {:induction false} ConcatMember(lines: seq<seq<Sym>>, l: seq<Sym>, x: Sym)
    requires l in lines && x in l
    ensures x in Concat(lines)
    decreases |lines|
  {
    var init := lines[..|lines| - 1];
    if lines[|lines| - 1] != l {
      assert l in init by {
        var k :| 0 <= k < |lines| && lines[k] == l;
        assert init[k] == l;
      }
      ConcatMember(init, l, x);
    }
  }

  /** Every output symbol is an input symbol that fits the width: wider ones are dropped. */
  lemma WrapSymbolsFit(syms: seq<Sym>, max: nat, trim: bool)
    ensures forall l, x :: l in Wrap(syms, max, trim) && x in l ==> x in syms && Width(x) <= max
  {
    forall l, x | l in Wrap(syms, max, trim) && x in l
      ensures x in syms && Width(x) <= max
    {
      ConcatMember(Wrap(syms, max, trim), l, x);
      WrapKeepsOrder(syms, max, trim);
      SubseqMember(Concat(Wrap(syms, max, trim)), Fitting(syms, max), x);
    }
  }

  /** A line that is empty or starts with a symbol that is not whitespace. */
  predicate StartsWithWord(l: seq<Sym>)
  {
    l == [] || !IsWhitespace(l[0])
  }

  /**
   * What trimming keeps true of the buffers: the pending word holds no
   * whitespace, and the line being filled and every finished line start
   * with a word, if they hold anything.
   */
  predicate TrimmedBuffers(st: WrapState)
  {
    && (forall i :: 0 <= i < |st.word| ==> !IsWhitespace(st.word[i]))
    && StartsWithWord(st.line)
    && (forall l :: l in st.wrapped ==> StartsWithWord(l))
  }

  lemma PlaceKeepsTrimmed(st: WrapState)
    requires TrimmedBuffers(st)
    ensures TrimmedBuffers(PlaceWord(st, true))
  {
    var line := st.line + (if st.line != [] then st.spaces else []) + st.word;
    if st.line != [] {
      assert line[0] == st.line[0];
    } else if st.word != [] {
      assert line == st.word;
    }
  }

  lemma EndLineKeepsTrimmed(st: WrapState, max: nat)
    requires TrimmedBuffers(st)
    ensures TrimmedBuffers(EndLine(st, max).0)
  {
    var ended := EndLine(st, max).0;
    assert ended.wrapped == st.wrapped + [st.line];
    forall l | l in ended.wrapped ensures StartsWithWord(l) {
      if l != st.line {
        assert l in st.wrapped;
      }
    }
  }

  lemma AppendKeepsTrimmed(st: WrapState, s: Sym)
    requires TrimmedBuffers(st)
    ensures TrimmedBuffers(Append(st, s, IsWhitespace(s)))
  {
    if !IsWhitespace(s) {
      var word := st.word + [s];
      assert forall i :: 0 <= i < |st.word| ==> word[i] == st.word[i];
    }
  }

  /** Reading one symbol with trimming keeps the buffers trimmed. */
  lemma StepKeepsTrimmed(st: WrapState, s: Sym, max: nat)
    requires TrimmedBuffers(st)
    ensures TrimmedBuffers(Step(st, s, max, true))
  {
    if Width(s) <= max {
      StepStages(st, s, max, true);
      var placed := Placed(st, s, max, true);
      if PlaceWordFirst(st, IsWhitespace(s), Width(s), max, true) {
        PlaceKeepsTrimmed(st);
      }
      if LineFull(placed, Width(s), max) {
        EndLineKeepsTrimmed(placed, max);
        AppendKeepsTrimmed(EndLine(placed, max).0, s);
      } else {
        AppendKeepsTrimmed(placed, s);
      }
    }
  }

  lemma {:induction false} FoldKeepsTrimmed(syms: seq<Sym>, max: nat)
    ensures TrimmedBuffers(Fold(syms, max, true))
    decreases |syms|
  {
    if syms != [] {
      FoldKeepsTrimmed(syms[..|syms| - 1], max);
      StepKeepsTrimmed(Fold(syms[..|syms| - 1], max, true), syms[|syms| - 1], max);
    }
  }

  /**
   * With trimming on, no output line starts with whitespace: the whitespace
   * before the first word of a line is dropped, both while the line is
   * filled and when the logical line ends.
   */
  lemma TrimmedLinesStartWithWord(syms: seq<Sym>, max: nat)
    ensures forall l :: l in Wrap(syms, max, true) ==> StartsWithWord(l)
  {
    var st := Fold(syms, max, true);
    FoldKeepsTrimmed(syms, max);
    FinishShape(st, true);
    var last := if st.line != [] then st.line + st.spaces + st.word else st.line + st.word;
    if st.line != [] {
      assert last[0] == st.line[0];
    } else if st.word != [] {
      assert last == st.word;
    }
    forall l | l in Wrap(syms, max, true) ensures StartsWithWord(l) {
      if l !in st.wrapped {
        assert l == [] || l == st.line || l == last;
      }
    }
  }

  lemma StepUnbroken(word: seq<Sym>, s: Sym, max: nat, trim: bool)
    requires max > 0 && !IsWhitespace(s)
    requires SumWidth(word) + Width(s) <= max
    ensures Step(WrapState([], [], [], word, word != []), s, max, trim) == WrapState([], [], [], word + [s], true)
  {
    var st := WrapState([], [], [], word, word != []);
    assert SumWidth([]) == 0;
    assert !PlaceWordFirst(st, false, Width(s), max, trim);
    assert !LineFull(st, Width(s), max);
  }

  lemma {:induction false} FoldUnbroken(syms: seq<Sym>, max: nat, trim: bool)
    requires max > 0
    requires forall i :: 0 <= i < |syms| ==> !IsWhitespace(syms[i])
    requires SumWidth(syms) <= max
    ensures Fold(syms, max, trim) == WrapState([], [], [], syms, syms != [])
    decreases |syms|
  {
    if syms != [] {
      var init := syms[..|syms| - 1];
      var s := syms[|syms| - 1];
      assert syms == init + [s];
      SumWidthConcat(init, [s]);
      assert SumWidth([s]) == Width(s);
      assert forall i :: 0 <= i < |init| ==> init[i] == syms[i];
      FoldUnbroken(init, max, trim);
      StepUnbroken(init, s, max, trim);
    }
  }

  /**
   * A logical line without whitespace that fits the width comes out as a
   * single line equal to it; the empty logical line comes out as one empty line.
   */
  lemma WrapUnbroken(syms: seq<Sym>, max: nat, trim: bool)
    requires max > 0
    requires forall i :: 0 <= i < |syms| ==> !IsWhitespace(syms[i])
    requires SumWidth(syms) <= max
    ensures Wrap(syms, max, trim) == [syms]
  {
    FoldUnbroken(syms, max, trim);
    var st := Fold(syms, max, trim);
    FinishShape(st, trim);
    if syms != [] {
      assert [] + [] + syms == syms && [] + syms == syms;
      assert Finish(st, trim) == [] + [syms];
    }
  }

  /** A symbol that is a single no-break space, of any width. */
  predicate IsNoBreakSpace(s: Sym)
  {
    |s.graphemes| == 1 && s.graphemes[0].text == NBSP
  }

  lemma NoBreakSpaceNotWhitespace(s: Sym)
    requires IsNoBreakSpace(s)
    ensures !IsWhitespace(s)
  {
    assert s == Sym([s.graphemes[0]]);
    SingleGrapheme(s.graphemes[0]);
  }

  /**
   * The no-break space does not separate words: a logical line of symbols
   * that are not whitespace or are no-break spaces comes out as one line
   * equal to it when it fits the width.
   */
  lemma NoBreakSpaceJoins(syms: seq<Sym>, max: nat, trim: bool)
    requires max > 0
    requires forall i :: 0 <= i < |syms| ==> !IsWhitespace(syms[i]) || IsNoBreakSpace(syms[i])
    requires SumWidth(syms) <= max
    ensures Wrap(syms, max, trim) == [syms]
  {
    forall i | 0 <= i < |syms| ensures !IsWhitespace(syms[i]) {
      if IsNoBreakSpace(syms[i]) {
        NoBreakSpaceNotWhitespace(syms[i]);
      }
    }
    WrapUnbroken(syms, max, trim);
  }

  /**
   * A logical line holding only a space comes out as one empty line, with
   * or without trimming: the whitespace is not kept even though it fits.
   */
  lemma WhitespaceOnlyLineIsBlank(max: nat, trim: bool)
    requires max > 0
    ensures Wrap([Sym([Grapheme(" ", 1)])], max, trim) == [[]]
  {
    var sp := Sym([Grapheme(" ", 1)]);
    SingleGrapheme(Grapheme(" ", 1));
    assert IsWhitespace(sp);
    assert [sp][..0] == [];
    assert SumWidth([]) == 0;
    assert Fold([sp], max, trim) == WrapState([], [], [sp], [], false);
  }

  /** The second symbol of the counterexample below joins the short first word. */
  lemma WideAfterShort(a: Sym, x: Sym, trim: bool)
    requires !IsWhitespace(x) && Width(a) == 1 && Width(x) == 2
    ensures Step(WrapState([], [], [], [a], true), x, 2, trim) == WrapState([], [a], [], [x], true)
  {
    var st := WrapState([], [], [], [a], true);
    assert SumWidth([a]) == 1 by {
      assert [a][1..] == [];
    }
    assert SumWidth([]) == 0;
    assert PlaceWordFirst(st, false, 2, 2, trim);
    var placed := PlaceWord(st, trim);
    assert placed == WrapState([], [a], [], [], true);
    assert !LineFull(placed, 2, 2);
  }

  /**
   * The wrapper does not bound the width of its lines by `max`: a word that
   * starts with a wide symbol is placed after the preceding word when the line
   * so far is short, and the check that would end the line happens before
   * the symbol is counted. With width 2, `a` (width 1) then a full-width `X`
   * (width 2) come out as one line of width 3, with or without trimming.
   */
  lemma WrapCanExceedWidth(trim: bool)
    ensures var a := Sym([Grapheme("a", 1)]);
            var x := Sym([Grapheme("\U{FF38}", 2)]);
            Wrap([a, x], 2, trim) == [[a, x]] && SumWidth([a, x]) == 3
  {
    var a := Sym([Grapheme("a", 1)]);
    var x := Sym([Grapheme("\U{FF38}", 2)]);
    SingleGrapheme(Grapheme("a", 1));
    SingleGrapheme(Grapheme("\U{FF38}", 2));
    assert Text(a)[0] == 'a' && !IsWhitespaceChar('a');
    assert !IsWhitespace(a);
    assert Text(x)[0] == '\U{FF38}' && !IsWhitespaceChar('\U{FF38}');
    assert !IsWhitespace(x);
    assert SumWidth([x]) == 2 by {
      assert [x][1..] == [];
    }
    assert SumWidth([a, x]) == 3 by {
      assert [a, x][1..] == [x];
    }
    assert [a, x][..1] == [a] && [a][..0] == [];
    StepUnbroken([], a, 2, trim);
    assert Fold([a], 2, trim) == WrapState([], [], [], [a], true);
    WideAfterShort(a, x, trim);
    assert Fold([a, x], 2, trim) == WrapState([], [a], [], [x], true);
    FinishShape(WrapState([], [a], [], [x], true), trim);
    assert [a] + [] + [x] == [a, x];
  }

  /** The output line as the composer reports it: symbols, their total width, alignment. */
  function Composed(lines: seq<seq<Sym>>, alignment: Alignment): (r: seq<ComposedLine>)
    ensures |r| == |lines|
    ensures forall i :: 0 <= i < |lines| ==>
              r[i].symbols == lines[i] && r[i].width == SumWidth(lines[i]) && r[i].alignment == alignment
  {
    seq(|lines|, i requires 0 <= i < |lines| => ComposedLine(lines[i], SumWidth(lines[i]), alignment))
  }

  /** Everything the composer outputs for `lines`, in order. */
  function WrapAll(lines: seq<LogicalLine>, max: nat, trim: bool): seq<ComposedLine>
    decreases |lines|
  {
    if lines == [] then []
    else Composed(Wrap(lines[0].symbols, max, trim), lines[0].alignment) + WrapAll(lines[1..], max, trim)
  }

  /**
   * Every logical line yields at least one output line; an empty logical
   * line yields exactly one, empty, with that line's alignment.
   */
  lemma {:induction false} WrapAllLines(lines: seq<LogicalLine>, max: nat, trim: bool)
    ensures |WrapAll(lines, max, trim)| >= |lines|
    ensures lines != [] && lines[0].symbols == [] ==>
              WrapAll(lines, max, trim) == [ComposedLine([], 0, lines[0].alignment)] + WrapAll(lines[1..], max, trim)
    decreases |lines|
  {
    if lines != [] {
      WrapAllLines(lines[1..], max, trim);
    }
  }

  /** No output line holds a symbol wider than `max`; each reports its symbols' total width. */
  lemma {:induction false} WrapAllFits(lines: seq<LogicalLine>, max: nat, trim: bool)
    ensures forall o :: o in WrapAll(lines, max, trim) ==>
              o.width == SumWidth(o.symbols) && forall x :: x in o.symbols ==> Width(x) <= max
    decreases |lines|
  {
    if lines != [] {
      var head := Composed(Wrap(lines[0].symbols, max, trim), lines[0].alignment);
      WrapAllFits(lines[1..], max, trim);
      WrapSymbolsFit(lines[0].symbols, max, trim);
      forall o | o in head
        ensures o.width == SumWidth(o.symbols) && forall x :: x in o.symbols ==> Width(x) <= max
      {
        var k :| 0 <= k < |head| && head[k] == o;
        assert o.symbols in Wrap(lines[0].symbols, max, trim);
      }
    }
  }

  /**
   * The lines a composer still has to hand out: the rest of the current
   * logical line's wrapped lines, then those of the logical lines not yet read.
   */
  function Queue(wrapped: Option<seq<seq<Sym>>>, alignment: Alignment, input: seq<LogicalLine>,
                 max: nat, trim: bool): seq<ComposedLine>
  {
    (match wrapped
     case None => []
     case Some(ls) => Composed(ls, alignment)) + WrapAll(input, max, trim)
  }

  /** Handing out a buffered wrapped line takes the head of the queue. */
  lemma QueuePop(ls: seq<seq<Sym>>, alignment: Alignment, input: seq<LogicalLine>, max: nat, trim: bool)
    requires ls != []
    ensures Queue(Some(ls), alignment, input, max, trim) ==
            [ComposedLine(ls[0], SumWidth(ls[0]), alignment)] + Queue(Some(ls[1..]), alignment, input, max, trim)
  {
    var rest := WrapAll(input, max, trim);
    assert Composed(ls, alignment) == [Composed(ls, alignment)[0]] + Composed(ls[1..], alignment);
    assert Composed(ls, alignment) + rest == [Composed(ls, alignment)[0]] + (Composed(ls[1..], alignment) + rest);
  }

  /** With no buffered lines left, reading the next logical line leaves the queue as it is. */
  lemma QueueRefill(wrapped: Option<seq<seq<Sym>>>, alignment: Alignment, input: seq<LogicalLine>, max: nat, trim: bool)
    requires wrapped.None? || wrapped == Some([])
    requires input != []
    ensures Queue(wrapped, alignment, input, max, trim) ==
            Queue(Some(Wrap(input[0].symbols, max, trim)), input[0].alignment, input[1..], max, trim)
  {
    assert Composed([], alignment) == [];
  }

  /** With no buffered lines and no logical lines left, the queue is empty. */
  lemma QueueDone(wrapped: Option<seq<seq<Sym>>>, alignment: Alignment, max: nat, trim: bool)
    requires wrapped.None? || wrapped == Some([])
    ensures Queue(wrapped, alignment, [], max, trim) == []
  {
    assert Composed([], alignment) == [];
  }

  /**
   * The loop of `next_line`: hands out the next buffered wrapped line,
   * wrapping the next logical line whenever the buffer has run out.
   */
  method TakeLine(wrapped0: Option<seq<seq<Sym>>>, alignment0: Alignment, input0: seq<LogicalLine>,
                  max: nat, trim: bool)
    returns (current: Option<seq<Sym>>, lineWidth: nat,
             wrapped: Option<seq<seq<Sym>>>, alignment: Alignment, input: seq<LogicalLine>)
    ensures var queue := Queue(wrapped0, alignment0, input0, max, trim);
            && (current.None? <==> queue == [])
            && (current.None? ==> Queue(wrapped, alignment, input, max, trim) == [])
            && (current.Some? ==>
                  queue[0] == ComposedLine(current.value, lineWidth, alignment) &&
                  Queue(wrapped, alignment, input, max, trim) == queue[1..] &&
                  lineWidth == SumWidth(current.value))
  {
    ghost var queue := Queue(wrapped0, alignment0, input0, max, trim);
    wrapped, alignment, input := wrapped0, alignment0, input0;
    current := None;
    lineWidth := 0;
    while current.None?
      invariant current.None? ==> Queue(wrapped, alignment, input, max, trim) == queue
      invariant current.Some? ==>
                  queue != [] && queue[0] == ComposedLine(current.value, lineWidth, alignment) &&
                  Queue(wrapped, alignment, input, max, trim) == queue[1..] &&
                  lineWidth == SumWidth(current.value)
      decreases |input|, if wrapped.Some? then |wrapped.value| + 1 else 0
    {
      if wrapped.Some? && wrapped.value != [] {
        var ls := wrapped.value;
        QueuePop(ls, alignment, input, max, trim);
        lineWidth := SumWidth(ls[0]);
        current := Some(ls[0]);
        wrapped := Some(ls[1..]);
      }
      if current.None? {
        if input != [] {
          QueueRefill(wrapped, alignment, input, max, trim);
          var next := input[0];
          input := input[1..];
          alignment := next.alignment;
          var lines := WrapLine(next.symbols, max, trim);
          wrapped := Some(lines);
        } else {
          QueueDone(wrapped, alignment, max, trim);
          break;
        }
      }
    }
  }

  /**
   * `WordWrapper`: the composer that wraps on word boundaries. The rest of
   * the wrapped lines of the current logical line wait in `wrappedLines`.
   */
  class WordWrapper {
    var inputLines: seq<LogicalLine>
    const maxLineWidth: nat
    var wrappedLines: Option<seq<seq<Sym>>>
    var currentAlignment: Alignment
    var currentLine: seq<Sym>
    const trim: bool

    constructor(lines: seq<LogicalLine>, maxLineWidth: nat, trim: bool)
      ensures inputLines == lines && this.maxLineWidth == maxLineWidth && this.trim == trim
      ensures wrappedLines == None && currentAlignment == Left && currentLine == []
      ensures Pending() == WrapAll(lines, maxLineWidth, trim)
    {
      inputLines := lines;
      this.maxLineWidth := maxLineWidth;
      wrappedLines := None;
      currentAlignment := Left;
      currentLine := [];
      this.trim := trim;
    }

    /** The lines still to come, in order. */
    ghost function Pending(): seq<ComposedLine>
      reads this
    {
      Queue(wrappedLines, currentAlignment, inputLines, maxLineWidth, trim)
    }

    /**
     * The next output line, or `None` when there is none; with a maximum
     * width of zero there never is one.
     */
    method NextLine() returns (r: Option<ComposedLine>)
      modifies this
      ensures maxLineWidth == 0 ==> r == None && unchanged(this)
      ensures maxLineWidth > 0 && old(Pending()) == [] ==> r == None && Pending() == []
      ensures maxLineWidth > 0 && old(Pending()) != [] ==>
                r == Some(old(Pending())[0]) && Pending() == old(Pending())[1..] &&
                currentLine == r.value.symbols && r.value.width == SumWidth(currentLine)
    {
      if maxLineWidth == 0 {
        return None;
      }
      var current, lineWidth, wrapped, alignment, input :=
        TakeLine(wrappedLines, currentAlignment, inputLines, maxLineWidth, trim);
      wrappedLines, currentAlignment, inputLines := wrapped, alignment, input;
      if current.Some? {
        currentLine := current.value;
        r := Some(ComposedLine(currentLine, lineWidth, currentAlignment));
      } else {
        r := None;
      }
    }
  }
}
