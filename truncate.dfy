/**
 * The line truncator: each logical line becomes exactly one output line,
 * cut off where the next symbol would overflow `maxLineWidth`. Left-aligned
 * lines can be scrolled horizontally: the first `horizontalOffset` columns
 * are skipped, symbols inside them kept as empty symbols and the symbol
 * straddling the offset trimmed at its front.
 */
module Truncate {
  import opened Wrappers
  import opened Symbols

  /** `gs` is what remains of `src` once some graphemes are cut from its front. */
  predicate IsSuffix(gs: seq<Grapheme>, src: seq<Grapheme>)
  {
    |gs| <= |src| && gs == src[|src| - |gs|..]
  }

  /** How many leading graphemes of `gs` fit inside `offset` columns, taken greedily. */
  function TrimStart(gs: seq<Grapheme>, offset: nat): (k: nat)
    ensures k <= |gs|
    decreases |gs|
  {
    if gs == [] then 0
    else if gs[0].width <= offset then 1 + TrimStart(gs[1..], offset - gs[0].width)
    else 0
  }

  lemma GraphemesWidthCons(g: Grapheme, gs: seq<Grapheme>)
    ensures GraphemesWidth([g] + gs) == g.width + GraphemesWidth(gs)
  {
    assert ([g] + gs)[1..] == gs;
  }

  /**
   * The graphemes cut off are the longest run from the front whose width
   * stays within the offset: they fit, and one more would not.
   */
  lemma {:induction false} TrimStartSpec(gs: seq<Grapheme>, offset: nat)
    ensures GraphemesWidth(gs[..TrimStart(gs, offset)]) <= offset
    ensures TrimStart(gs, offset) < |gs| ==> GraphemesWidth(gs[..TrimStart(gs, offset) + 1]) > offset
    decreases |gs|
  {
    if gs != [] {
      var k := TrimStart(gs, offset);
      if gs[0].width <= offset {
        var o := offset - gs[0].width;
        TrimStartSpec(gs[1..], o);
        assert gs[..k] == [gs[0]] + gs[1..][..k - 1];
        GraphemesWidthCons(gs[0], gs[1..][..k - 1]);
        if k < |gs| {
          assert gs[..k + 1] == [gs[0]] + gs[1..][..k];
          GraphemesWidthCons(gs[0], gs[1..][..k]);
        }
      } else {
        assert gs[..1] == [gs[0]] + [];
        GraphemesWidthCons(gs[0], []);
      }
    }
  }

  /** A symbol with its first `offset` columns cut off, grapheme by grapheme. */
  function Trimmed(src: Sym, offset: nat): (r: Sym)
    ensures IsSuffix(r.graphemes, src.graphemes)
  {
    Sym(src.graphemes[TrimStart(src.graphemes, offset)..])
  }

  /**
   * What trimming keeps: at most the symbol's width, at least the columns
   * beyond the offset, and all of a symbol trimmed by nothing.
   */
  lemma TrimmedWidth(src: Sym, offset: nat)
    ensures Width(Trimmed(src, offset)) <= Width(src)
    ensures Width(src) <= offset + Width(Trimmed(src, offset))
    ensures Width(src) > offset ==> Width(Trimmed(src, offset)) > 0
  {
    var gs := src.graphemes;
    var k := TrimStart(gs, offset);
    TrimStartSpec(gs, offset);
    assert gs == gs[..k] + gs[k..];
    GraphemesWidthConcat(gs[..k], gs[k..]);
  }

  /**
   * The source's `trim_offset`: walks the graphemes, skipping each one
   * that still fits in the remaining offset.
   */
  method TrimOffset(src: Sym, offset: nat) returns (r: Sym)
    ensures r == Trimmed(src, offset)
  {
    var gs := src.graphemes;
    var start := 0;
    var left := offset;
    while start < |gs|
      invariant start <= |gs|
      invariant TrimStart(gs, offset) == start + TrimStart(gs[start..], left)
    {
      var w := gs[start].width;
      if w <= left {
        assert gs[start..][1..] == gs[start + 1..];
        left := left - w;
        start := start + 1;
      } else {
        break;
      }
    }
    r := Sym(gs[start..]);
  }

  /** What reading one symbol does: skip it, end the line, or push what is shown of it. */
  datatype Outcome = Skip | Stop | Push(sym: Sym, width: nat, offset: nat)

  /**
   * One symbol read with `width` columns already used and `offset` columns
   * still to skip; `left` says whether the line is left-aligned, the only
   * alignment that scrolls. The fit test uses the symbol's full width, the
   * running width only what is pushed.
   */
  function TruncateStep(s: Sym, max: nat, width: nat, offset: nat, left: bool): Outcome
  {
    var w := Width(s);
    if w > max then Skip
    else if width + w > max then Stop
    else if offset == 0 || !left then Push(s, width + w, offset)
    else if w > offset then Push(Trimmed(s, offset), width + Width(Trimmed(s, offset)), 0)
    else Push(Sym([]), width, offset - w)
  }

  /**
   * A symbol is skipped exactly when it is wider than the line and ends the
   * line exactly when it fits but not after what is used; what is pushed is
   * a front-trimmed part of it, counted into the width, and the whole
   * symbol when the line does not scroll.
   */
  lemma StepFacts(s: Sym, max: nat, width: nat, offset: nat, left: bool)
    ensures var o := TruncateStep(s, max, width, offset, left);
            && (o.Skip? <==> Width(s) > max)
            && (o.Stop? <==> Width(s) <= max < width + Width(s))
            && (o.Push? ==> width + Width(s) <= max && o.width == width + Width(o.sym) &&
                            Width(o.sym) <= Width(s) && IsSuffix(o.sym.graphemes, s.graphemes))
            && (o.Push? && (offset == 0 || !left) ==> o == Push(s, width + Width(s), offset))
            && (o.Push? && left && 0 < offset && Width(s) <= offset ==> o == Push(Sym([]), width, offset - Width(s)))
            && (o.Push? && left && 0 < offset < Width(s) ==>
                  o == Push(Trimmed(s, offset), width + Width(Trimmed(s, offset)), 0))
  {
    TrimmedWidth(s, offset);
    assert IsSuffix([], s.graphemes);
  }

  /** The symbols pushed while reading `syms`, up to the first that ends the line. */
  function TruncateFrom(syms: seq<Sym>, max: nat, width: nat, offset: nat, left: bool): seq<Sym>
    decreases |syms|
  {
    if syms == [] then []
    else match TruncateStep(syms[0], max, width, offset, left)
      case Skip => TruncateFrom(syms[1..], max, width, offset, left)
      case Stop => []
      case Push(t, width', offset') => [t] + TruncateFrom(syms[1..], max, width', offset', left)
  }



  /** The output line of one logical line scrolled by `offset`. */
  function Truncated(line: LogicalLine, max: nat, offset: nat): seq<Sym>
  {
    TruncateFrom(line.symbols, max, 0, offset, line.alignment == Left)
  }

  lemma SumWidthCons(t: Sym, r: seq<Sym>)
    ensures SumWidth([t] + r) == Width(t) + SumWidth(r)
  {
    assert ([t] + r)[1..] == r;
  }

  /** The pushed symbols never take the line past `max`. */
  lemma {:induction false} TruncateFits(syms: seq<Sym>, max: nat, width: nat, offset: nat, left: bool)
    requires width <= max
    ensures width + SumWidth(TruncateFrom(syms, max, width, offset, left)) <= max
    decreases |syms|
  {
    if syms != [] {
      StepFacts(syms[0], max, width, offset, left);
      match TruncateStep(syms[0], max, width, offset, left)
      case Skip =>
        TruncateFits(syms[1..], max, width, offset, left);
      case Stop =>
      case Push(t, width', offset') =>
        TruncateFits(syms[1..], max, width', offset', left);
        SumWidthCons(t, TruncateFrom(syms[1..], max, width', offset', left));
    }
  }

  /** No output symbol is wider than the line. */
  lemma TruncateSymbolsFit(syms: seq<Sym>, max: nat, offset: nat, left: bool)
    ensures forall x :: x in TruncateFrom(syms, max, 0, offset, left) ==> Width(x) <= max
  {
    var r := TruncateFrom(syms, max, 0, offset, left);
    TruncateFits(syms, max, 0, offset, left);
    forall x | x in r
      ensures Width(x) <= max
    {
      var k :| 0 <= k < |r| && r[k] == x;
      ElementWidthBelowSum(r, k);
    }
  }

  lemma FittingCons(s: Sym, rest: seq<Sym>, max: nat)
    ensures Fitting([s] + rest, max) == if Width(s) <= max then [s] + Fitting(rest, max) else Fitting(rest, max)
  {
    assert ([s] + rest)[0] == s && ([s] + rest)[1..] == rest;
  }

  /**
   * Without scrolling the output is the longest run of the symbols that fit
   * the width (wider ones dropped) whose total stays within the line: a
   * prefix of them, and either all of them or stopping at the first one
   * that would overflow.
   */
  lemma {:induction false} TruncateUnscrolled(syms: seq<Sym>, max: nat, width: nat, offset: nat, left: bool)
    requires offset == 0 || !left
    ensures var r := TruncateFrom(syms, max, width, offset, left);
            var f := Fitting(syms, max);
            |r| <= |f| && r == f[..|r|] &&
            (|r| < |f| ==> width + SumWidth(r) + Width(f[|r|]) > max)
    decreases |syms|
  {
    if syms != [] {
      var s, rest := syms[0], syms[1..];
      assert syms == [s] + rest;
      FittingCons(s, rest, max);
      StepFacts(s, max, width, offset, left);
      match TruncateStep(s, max, width, offset, left)
      case Skip =>
        TruncateUnscrolled(rest, max, width, offset, left);
      case Stop =>
      case Push(t, width', offset') =>
        var r' := TruncateFrom(rest, max, width', offset', left);
        TruncateUnscrolled(rest, max, width', offset', left);
        SumWidthCons(s, r');
        UnscrolledStep(s, r', Fitting(rest, max), max, width);
    }
  }

  lemma UnscrolledStep(s: Sym, r': seq<Sym>, f': seq<Sym>, max: nat, width: nat)
    requires |r'| <= |f'| && r' == f'[..|r'|]
    requires |r'| < |f'| ==> width + Width(s) + SumWidth(r') + Width(f'[|r'|]) > max
    requires SumWidth([s] + r') == Width(s) + SumWidth(r')
    ensures var r := [s] + r';
            var f := [s] + f';
            |r| <= |f| && r == f[..|r|] &&
            (|r| < |f| ==> width + SumWidth(r) + Width(f[|r|]) > max)
  {
    var r := [s] + r';
    var f := [s] + f';
    assert f[..|r|] == [s] + f'[..|r'|];
    if |r| < |f| {
      assert f[|r|] == f'[|r'|];
    }
  }

  /** A line that is not left-aligned ignores the horizontal offset. */
  lemma {:induction false} OffsetOnlyScrollsLeft(syms: seq<Sym>, max: nat, width: nat, offset: nat)
    ensures TruncateFrom(syms, max, width, offset, false) == TruncateFrom(syms, max, width, 0, false)
    decreases |syms|
  {
    if syms != [] {
      var s, rest := syms[0], syms[1..];
      StepFacts(s, max, width, offset, false);
      StepFacts(s, max, width, 0, false);
      if Width(s) > max {
        OffsetOnlyScrollsLeft(rest, max, width, offset);
      } else if width + Width(s) <= max {
        var width' := width + Width(s);
        assert TruncateStep(s, max, width, offset, false) == Push(s, width', offset);
        assert TruncateStep(s, max, width, 0, false) == Push(s, width', 0);
        OffsetOnlyScrollsLeft(rest, max, width', offset);
      }
    }
  }

  lemma ScrolledStep(t: Sym, s: Sym, r': seq<Sym>, f': seq<Sym>)
    requires IsSuffix(t.graphemes, s.graphemes)
    requires |r'| <= |f'| && forall i :: 0 <= i < |r'| ==> IsSuffix(r'[i].graphemes, f'[i].graphemes)
    ensures var r := [t] + r';
            var f := [s] + f';
            |r| <= |f| && forall i :: 0 <= i < |r| ==> IsSuffix(r[i].graphemes, f[i].graphemes)
  {
    var r := [t] + r';
    var f := [s] + f';
    forall i | 0 <= i < |r|
      ensures IsSuffix(r[i].graphemes, f[i].graphemes)
    {
      if i > 0 {
        assert r[i] == r'[i - 1] && f[i] == f'[i - 1];
      }
    }
  }

  /**
   * Scrolling only cuts symbols at their front: the output lines up with
   * the symbols that fit the width, each output symbol what remains of its
   * input symbol.
   */
  lemma {:induction false} TruncateScrolled(syms: seq<Sym>, max: nat, width: nat, offset: nat, left: bool)
    ensures var r := TruncateFrom(syms, max, width, offset, left);
            var f := Fitting(syms, max);
            |r| <= |f| && forall i :: 0 <= i < |r| ==> IsSuffix(r[i].graphemes, f[i].graphemes)
    decreases |syms|
  {
    if syms != [] {
      var s, rest := syms[0], syms[1..];
      assert syms == [s] + rest;
      FittingCons(s, rest, max);
      StepFacts(s, max, width, offset, left);
      match TruncateStep(s, max, width, offset, left)
      case Skip =>
        TruncateScrolled(rest, max, width, offset, left);
      case Stop =>
      case Push(t, width', offset') =>
        TruncateScrolled(rest, max, width', offset', left);
        ScrolledStep(t, s, TruncateFrom(rest, max, width', offset', left), Fitting(rest, max));
    }
  }

  /**
   * What scrolling by `offset` leaves of a symbol that starts `before`
   * columns into the fitting symbols: all of it once the offset lies behind
   * its start, nothing while it lies wholly within the offset, and its part
   * beyond the offset when it straddles it.
   */
  function ScrolledSym(s: Sym, offset: nat, before: nat): Sym
  {
    if before >= offset then s
    else if before + Width(s) <= offset then Sym([])
    else Trimmed(s, offset - before)
  }

  /** After a symbol of width `w` is read, the offset left over is the old one less `w`, or none. */
  predicate OffsetAfter(offset': nat, offset: nat, w: nat)
  {
    (offset' == 0 && offset <= w) || offset' + w == offset
  }

  /** Pushing `s` emits what scrolling leaves of it, and moves the offset past it. */
  lemma ScrolledPush(s: Sym, max: nat, width: nat, offset: nat)
    requires TruncateStep(s, max, width, offset, true).Push?
    ensures TruncateStep(s, max, width, offset, true).sym == ScrolledSym(s, offset, 0)
    ensures OffsetAfter(TruncateStep(s, max, width, offset, true).offset, offset, Width(s))
  {
  }

  /** A later symbol is cut by the offset left over as by the old one counted from before `s`. */
  lemma ScrolledShift(x: Sym, offset': nat, offset: nat, w: nat, before: nat)
    requires OffsetAfter(offset', offset, w)
    ensures ScrolledSym(x, offset', before) == ScrolledSym(x, offset, w + before)
  {
  }

  /** The symbol-by-symbol statement carries over to one more pushed symbol in front. */
  lemma ScrolledCons(t: Sym, s: Sym, r': seq<Sym>, f': seq<Sym>, offset: nat, offset': nat)
    requires OffsetAfter(offset', offset, Width(s))
    requires t == ScrolledSym(s, offset, 0)
    requires |r'| <= |f'|
    requires forall i :: 0 <= i < |r'| ==> r'[i] == ScrolledSym(f'[i], offset', SumWidth(f'[..i]))
    ensures var r := [t] + r';
            var f := [s] + f';
            forall i :: 0 <= i < |r| ==> r[i] == ScrolledSym(f[i], offset, SumWidth(f[..i]))
  {
    var r := [t] + r';
    var f := [s] + f';
    forall i | 0 <= i < |r| ensures r[i] == ScrolledSym(f[i], offset, SumWidth(f[..i])) {
      if i == 0 {
        assert f[..0] == [];
      } else {
        assert r[i] == r'[i - 1] && f[i] == f'[i - 1];
        assert f[..i] == [s] + f'[..i - 1];
        SumWidthCons(s, f'[..i - 1]);
        ScrolledShift(f'[i - 1], offset', offset, Width(s), SumWidth(f'[..i - 1]));
      }
    }
  }

  lemma {:induction false} ScrolledExactFrom(syms: seq<Sym>, max: nat, width: nat, offset: nat)
    ensures var r := TruncateFrom(syms, max, width, offset, true);
            var f := Fitting(syms, max);
            && |r| <= |f|
            && (forall i :: 0 <= i < |r| ==> r[i] == ScrolledSym(f[i], offset, SumWidth(f[..i])))
            && (|r| < |f| ==> width + SumWidth(r) + Width(f[|r|]) > max)
    decreases |syms|
  {
    if syms != [] {
      var s, rest := syms[0], syms[1..];
      assert syms == [s] + rest;
      FittingCons(s, rest, max);
      StepFacts(s, max, width, offset, true);
      var o := TruncateStep(s, max, width, offset, true);
      if o.Skip? {
        ScrolledExactFrom(rest, max, width, offset);
      } else if o.Stop? {
        assert TruncateFrom(syms, max, width, offset, true) == [];
        assert SumWidth([]) == 0;
      } else {
        ScrolledExactFrom(rest, max, o.width, o.offset);
        var r' := TruncateFrom(rest, max, o.width, o.offset, true);
        assert TruncateFrom(syms, max, width, offset, true) == [o.sym] + r';
        ScrolledPush(s, max, width, offset);
        ScrolledCons(o.sym, s, r', Fitting(rest, max), offset, o.offset);
        SumWidthCons(o.sym, r');
      }
    }
  }

  /**
   * Scrolling a left-aligned line by `k` columns lines its output up with
   * the symbols `f` that fit the width, each cut as `ScrolledSym` says, and
   * stops early only at a symbol that would take the line past the width at
   * its full width.
   */
  lemma ScrolledLine(syms: seq<Sym>, max: nat, k: nat)
    ensures var r, f := TruncateFrom(syms, max, 0, k, true), Fitting(syms, max);
            && |r| <= |f|
            && (forall i :: 0 <= i < |r| ==> r[i] == ScrolledSym(f[i], k, SumWidth(f[..i])))
            && (|r| < |f| ==> SumWidth(r) + Width(f[|r|]) > max)
  {
    ScrolledExactFrom(syms, max, 0, k);
  }

  /** Scrolled by `k`, a fitting symbol wholly within the first `k` columns comes out empty. */
  lemma ScrolledInside(syms: seq<Sym>, max: nat, k: nat, i: nat)
    requires var r, f := TruncateFrom(syms, max, 0, k, true), Fitting(syms, max);
             i < |r| && i < |f| && SumWidth(f[..i]) < k && SumWidth(f[..i]) + Width(f[i]) <= k
    ensures TruncateFrom(syms, max, 0, k, true)[i] == Sym([])
  {
    ScrolledLine(syms, max, k);
  }

  /** Scrolled by `k`, a fitting symbol that straddles column `k` comes out trimmed to its part beyond it. */
  lemma ScrolledStraddle(syms: seq<Sym>, max: nat, k: nat, i: nat)
    requires var r, f := TruncateFrom(syms, max, 0, k, true), Fitting(syms, max);
             i < |r| && i < |f| && SumWidth(f[..i]) < k < SumWidth(f[..i]) + Width(f[i])
    ensures var f := Fitting(syms, max);
            TruncateFrom(syms, max, 0, k, true)[i] == Trimmed(f[i], k - SumWidth(f[..i]))
  {
    ScrolledLine(syms, max, k);
  }

  /** Scrolled by `k`, a fitting symbol that starts at or after column `k` comes out whole. */
  lemma ScrolledAfter(syms: seq<Sym>, max: nat, k: nat, i: nat)
    requires var r, f := TruncateFrom(syms, max, 0, k, true), Fitting(syms, max);
             i < |r| && i < |f| && SumWidth(f[..i]) >= k
    ensures TruncateFrom(syms, max, 0, k, true)[i] == Fitting(syms, max)[i]
  {
    ScrolledLine(syms, max, k);
  }

  /** A symbol ends no further in than the width of the whole sequence. */
  lemma PrefixWithin(f: seq<Sym>, i: nat)
    requires i < |f|
    ensures SumWidth(f[..i]) + Width(f[i]) <= SumWidth(f)
  {
    assert f[..i] + f[i..] == f;
    SumWidthConcat(f[..i], f[i..]);
    assert f[i..][1..] == f[i + 1..];
  }

  lemma {:induction false} SumWidthEmpty(r: seq<Sym>)
    requires forall i :: 0 <= i < |r| ==> r[i] == Sym([])
    ensures SumWidth(r) == 0
    decreases |r|
  {
    if r != [] {
      assert r[0] == Sym([]);
      SumWidthEmpty(r[1..]);
    }
  }

  /**
   * Scrolling a left-aligned line beyond all the columns of its fitting
   * symbols leaves one empty symbol for each of them.
   */
  lemma ScrolledPastEnd(syms: seq<Sym>, max: nat, offset: nat)
    requires offset > SumWidth(Fitting(syms, max))
    ensures |TruncateFrom(syms, max, 0, offset, true)| == |Fitting(syms, max)|
    ensures forall i :: 0 <= i < |TruncateFrom(syms, max, 0, offset, true)| ==>
              TruncateFrom(syms, max, 0, offset, true)[i] == Sym([])
  {
    var r, f := TruncateFrom(syms, max, 0, offset, true), Fitting(syms, max);
    ScrolledLine(syms, max, offset);
    forall i | 0 <= i < |r| ensures r[i] == Sym([]) {
      PrefixWithin(f, i);
    }
    SumWidthEmpty(r);
  }

  /**
   * The body of the source's loop for one symbol: skip, stop, or push it,
   * trimmed with `TrimOffset` when it straddles the offset.
   */
  method TruncateSymbol(s: Sym, max: nat, width: nat, offset: nat, left: bool) returns (o: Outcome)
    ensures o == TruncateStep(s, max, width, offset, left)
  {
    var w := Width(s);
    if w > max {
      return Skip;
    }
    if width + w > max {
      return Stop;
    }
    if offset == 0 || !left {
      return Push(s, width + w, offset);
    }
    if w > offset {
      var t := TrimOffset(s, offset);
      return Push(t, width + Width(t), 0);
    }
    return Push(Sym([]), width, offset - w);
  }

  /** One turn of the truncating loop, stated on the line built so far. */
  lemma TruncateLoopStep(cur: seq<Sym>, syms: seq<Sym>, i: nat, max: nat, width: nat, offset: nat, left: bool,
                         total: seq<Sym>)
    requires i < |syms|
    requires cur + TruncateFrom(syms[i..], max, width, offset, left) == total
    ensures var o := TruncateStep(syms[i], max, width, offset, left);
            && (o.Skip? ==> cur + TruncateFrom(syms[i + 1..], max, width, offset, left) == total)
            && (o.Stop? ==> cur == total)
            && (o.Push? ==>
                  (cur + [o.sym]) + TruncateFrom(syms[i + 1..], max, o.width, o.offset, left) == total &&
                  SumWidth(cur + [o.sym]) == SumWidth(cur) + Width(o.sym))
  {
    assert syms[i..][0] == syms[i] && syms[i..][1..] == syms[i + 1..];
    var o := TruncateStep(syms[i], max, width, offset, left);
    if o.Push? {
      var rest := TruncateFrom(syms[i + 1..], max, o.width, o.offset, left);
      assert (cur + [o.sym]) + rest == cur + ([o.sym] + rest);
      SumWidthConcat(cur, [o.sym]);
      SumWidthCons(o.sym, []);
    }
  }

  /**
   * `LineTruncator`: the composer that cuts each logical line to the width,
   * scrolled left by `horizontalOffset` columns.
   */
  class LineTruncator {
    var inputLines: seq<LogicalLine>
    const maxLineWidth: nat
    var currentLine: seq<Sym>
    var horizontalOffset: nat

    constructor(lines: seq<LogicalLine>, maxLineWidth: nat)
      ensures inputLines == lines && this.maxLineWidth == maxLineWidth
      ensures horizontalOffset == 0 && currentLine == []
    {
      inputLines := lines;
      this.maxLineWidth := maxLineWidth;
      horizontalOffset := 0;
      currentLine := [];
    }

    method SetHorizontalOffset(horizontalOffset: nat)
      modifies this
      ensures this.horizontalOffset == horizontalOffset
      ensures inputLines == old(inputLines) && currentLine == old(currentLine)
    {
      this.horizontalOffset := horizontalOffset;
    }

    /**
     * The next logical line cut to the width, or `None` once they are used
     * up; with a maximum width of zero there is never a line.
     */
    method NextLine() returns (r: Option<ComposedLine>)
      modifies this
      ensures maxLineWidth == 0 ==> r == None && unchanged(this)
      ensures horizontalOffset == old(horizontalOffset)
      ensures maxLineWidth > 0 && old(inputLines) == [] ==> r == None && inputLines == [] && currentLine == []
      ensures maxLineWidth > 0 && old(inputLines) != [] ==>
                inputLines == old(inputLines)[1..] &&
                currentLine == Truncated(old(inputLines)[0], maxLineWidth, horizontalOffset) &&
                r == Some(ComposedLine(currentLine, SumWidth(currentLine), old(inputLines)[0].alignment))
    {
      if maxLineWidth == 0 {
        return None;
      }
      currentLine := [];
      if inputLines == [] {
        return None;
      }
      var line := inputLines[0];
      inputLines := inputLines[1..];
      var syms := line.symbols;
      var left := line.alignment == Left;
      var offset: nat := horizontalOffset;
      var width: nat := 0;
      var i := 0;
      while i < |syms|
        invariant i <= |syms|
        invariant inputLines == old(inputLines)[1..] && horizontalOffset == old(horizontalOffset)
        invariant width == SumWidth(currentLine)
        invariant currentLine + TruncateFrom(syms[i..], maxLineWidth, width, offset, left)
                  == TruncateFrom(syms, maxLineWidth, 0, horizontalOffset, left)
      {
        var o := TruncateSymbol(syms[i], maxLineWidth, width, offset, left);
        TruncateLoopStep(currentLine, syms, i, maxLineWidth, width, offset, left,
                         TruncateFrom(syms, maxLineWidth, 0, horizontalOffset, left));
        StepFacts(syms[i], maxLineWidth, width, offset, left);
        if o.Stop? {
          break;
        }
        if o.Push? {
          currentLine := currentLine + [o.sym];
          width, offset := o.width, o.offset;
        }
        i := i + 1;
      }
      assert syms[|syms|..] == [];
      r := Some(ComposedLine(currentLine, width, line.alignment));
    }
  }
}
