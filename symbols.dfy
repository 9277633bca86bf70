/**
 * Styled symbols as the line composers see them. A symbol is one styled
 * grapheme of the text being laid out; its display width comes from the
 * Unicode width tables, which are outside this model, so every grapheme
 * carries its width as given data. A symbol is kept as the sequence of the
 * graphemes its text segments into, so that a prefix of it can be cut off.
 */
module Symbols {
  datatype Grapheme = Grapheme(text: string, width: nat)

  datatype Sym = Sym(graphemes: seq<Grapheme>)

  datatype Alignment = Left | Center | Right

  /** One logical line of input: its symbols and its alignment. */
  datatype LogicalLine = LogicalLine(symbols: seq<Sym>, alignment: Alignment)

  /** One composed output line: its symbols, its reported width and its alignment. */
  datatype ComposedLine = ComposedLine(symbols: seq<Sym>, width: nat, alignment: Alignment)

  /** The no-break space, which the word wrapper does not break at. */
  const NBSP: string := "\U{00A0}"

  /** The total width of a run of graphemes. */
  function GraphemesWidth(gs: seq<Grapheme>): nat
    decreases |gs|
  {
    if gs == [] then 0 else gs[0].width + GraphemesWidth(gs[1..])
  }

  lemma {:induction false} GraphemesWidthConcat(a: seq<Grapheme>, b: seq<Grapheme>)
    ensures GraphemesWidth(a + b) == GraphemesWidth(a) + GraphemesWidth(b)
    decreases |a|
  {
    if a == [] {
      assert a + b == b;
    } else {
      assert (a + b)[1..] == a[1..] + b;
      GraphemesWidthConcat(a[1..], b);
    }
  }

  /** The display width of a symbol. */
  function Width(s: Sym): nat
  {
    GraphemesWidth(s.graphemes)
  }

  /** The text of a symbol: its graphemes' texts, concatenated. */
  function Text(s: Sym): string
  {
    TextOf(s.graphemes)
  }

  function TextOf(gs: seq<Grapheme>): string
    decreases |gs|
  {
    if gs == [] then "" else gs[0].text + TextOf(gs[1..])
  }

  /** The characters with the Unicode White_Space property. */
  predicate IsWhitespaceChar(c: char)
  {
    || ('\t' <= c <= '\r')
    || c == ' '
    || c == '\U{0085}'
    || c == '\U{00A0}'
    || c == '\U{1680}'
    || ('\U{2000}' <= c <= '\U{200A}')
    || c == '\U{2028}'
    || c == '\U{2029}'
    || c == '\U{202F}'
    || c == '\U{205F}'
    || c == '\U{3000}'
  }

  /**
   * Whether the word wrapper treats a symbol as whitespace: every character
   * of it is whitespace, and it is not the no-break space.
   */
  predicate IsWhitespace(s: Sym)
  {
    (forall i :: 0 <= i < |Text(s)| ==> IsWhitespaceChar(Text(s)[i])) && Text(s) != NBSP
  }

  /** A symbol of one grapheme has that grapheme's text and width. */
  lemma SingleGrapheme(g: Grapheme)
    ensures Text(Sym([g])) == g.text && Width(Sym([g])) == g.width
  {
    assert [g][1..] == [];
    assert TextOf([]) == "" && GraphemesWidth([]) == 0;
    assert g.text + "" == g.text;
  }

  /** The total width of a run of symbols. */
  function SumWidth(syms: seq<Sym>): nat
    decreases |syms|
  {
    if syms == [] then 0 else Width(syms[0]) + SumWidth(syms[1..])
  }

  lemma {:induction false} SumWidthConcat(a: seq<Sym>, b: seq<Sym>)
    ensures SumWidth(a + b) == SumWidth(a) + SumWidth(b)
    decreases |a|
  {
    if a == [] {
      assert a + b == b;
    } else {
      assert (a + b)[1..] == a[1..] + b;
      SumWidthConcat(a[1..], b);
    }
  }

  /** Each symbol is at most as wide as a run containing it. */
  lemma {:induction false} ElementWidthBelowSum(syms: seq<Sym>, i: nat)
    requires i < |syms|
    ensures Width(syms[i]) <= SumWidth(syms)
    decreases |syms|
  {
    if i > 0 {
      ElementWidthBelowSum(syms[1..], i - 1);
    }
  }

  /** The lines of a composed paragraph, joined. */
  function Concat(lines: seq<seq<Sym>>): seq<Sym>
    decreases |lines|
  {
    if lines == [] then [] else Concat(lines[..|lines| - 1]) + lines[|lines| - 1]
  }

  /** The symbols no wider than `max`, in order: those a composer keeps. */
  function Fitting(syms: seq<Sym>, max: nat): (r: seq<Sym>)
    ensures |r| <= |syms|
    ensures forall s :: s in r ==> s in syms && Width(s) <= max
    decreases |syms|
  {
    if syms == [] then []
    else (if Width(syms[0]) <= max then [syms[0]] else []) + Fitting(syms[1..], max)
  }

  /** Every symbol no wider than `max` is kept, and the kept ones stay in their input order. */
  lemma {:induction false} FittingKeepsAll(syms: seq<Sym>, max: nat)
    ensures forall i :: 0 <= i < |syms| && Width(syms[i]) <= max ==> syms[i] in Fitting(syms, max)
    ensures Subseq(Fitting(syms, max), syms)
    decreases |syms|
  {
    if syms != [] {
      var head := if Width(syms[0]) <= max then [syms[0]] else [];
      var rest := Fitting(syms[1..], max);
      FittingKeepsAll(syms[1..], max);
      SubseqRefl([syms[0]]);
      SubseqEmpty([syms[0]]);
      SubseqConcat(head, [syms[0]], rest, syms[1..]);
      assert [syms[0]] + syms[1..] == syms;
      assert forall i :: 1 <= i < |syms| ==> syms[i] == syms[1..][i - 1];
    }
  }

  lemma {:induction false} FittingConcat(a: seq<Sym>, b: seq<Sym>, max: nat)
    ensures Fitting(a + b, max) == Fitting(a, max) + Fitting(b, max)
    decreases |a|
  {
    if a == [] {
      assert a + b == b;
    } else {
      assert (a + b)[1..] == a[1..] + b;
      FittingConcat(a[1..], b, max);
    }
  }

  /** `a` is `b` with some of its elements left out, the rest kept in order. */
  predicate Subseq(a: seq<Sym>, b: seq<Sym>)
    decreases |b|
  {
    if a == [] then true
    else if b == [] then false
    else if a[|a| - 1] == b[|b| - 1] then Subseq(a[..|a| - 1], b[..|b| - 1])
    else Subseq(a, b[..|b| - 1])
  }

  lemma {:induction false} SubseqDropLast(a: seq<Sym>, b: seq<Sym>)
    requires a != [] && Subseq(a, b)
    ensures Subseq(a[..|a| - 1], b)
    decreases |b|, 0
  {
    var a' := a[..|a| - 1];
    var b' := b[..|b| - 1];
    if a[|a| - 1] == b[|b| - 1] {
      SubseqAppendRight(a', b', b[|b| - 1]);
      assert b' + [b[|b| - 1]] == b;
    } else {
      SubseqDropLast(a, b');
      SubseqAppendRight(a', b', b[|b| - 1]);
      assert b' + [b[|b| - 1]] == b;
    }
  }

  lemma {:induction false} SubseqAppendRight(a: seq<Sym>, b: seq<Sym>, x: Sym)
    requires Subseq(a, b)
    ensures Subseq(a, b + [x])
    decreases |b|, 1
  {
    assert (b + [x])[..|b + [x]| - 1] == b;
    if a != [] && a[|a| - 1] == x {
      SubseqDropLast(a, b);
    }
  }

  /** Subsequences of the two halves make a subsequence of the whole. */
  lemma {:induction false} SubseqConcat(a1: seq<Sym>, b1: seq<Sym>, a2: seq<Sym>, b2: seq<Sym>)
    requires Subseq(a1, b1) && Subseq(a2, b2)
    ensures Subseq(a1 + a2, b1 + b2)
    decreases |b2|
  {
    if b2 == [] {
      assert a2 == [];
      assert a1 + a2 == a1 && b1 + b2 == b1;
    } else {
      var b2' := b2[..|b2| - 1];
      var x := b2[|b2| - 1];
      assert (b1 + b2)[..|b1 + b2| - 1] == b1 + b2';
      assert (b1 + b2)[|b1 + b2| - 1] == x;
      if a2 != [] && a2[|a2| - 1] == x {
        var a2' := a2[..|a2| - 1];
        SubseqConcat(a1, b1, a2', b2');
        assert (a1 + a2)[..|a1 + a2| - 1] == a1 + a2';
        assert (a1 + a2)[|a1 + a2| - 1] == x;
      } else {
        SubseqConcat(a1, b1, a2, b2');
        SubseqAppendRight(a1 + a2, b1 + b2', x);
        assert b1 + b2' + [x] == b1 + b2;
      }
    }
  }

  lemma {:induction false} SubseqRefl(a: seq<Sym>)
    ensures Subseq(a, a)
    decreases |a|
  {
    if a != [] {
      SubseqRefl(a[..|a| - 1]);
    }
  }

  lemma {:induction false} SubseqEmpty(b: seq<Sym>)
    ensures Subseq([], b)
  {
  }

  lemma {:induction false} SubseqTrans(a: seq<Sym>, b: seq<Sym>, c: seq<Sym>)
    requires Subseq(a, b) && Subseq(b, c)
    ensures Subseq(a, c)
    decreases |c|
  {
    if a != [] && c != [] {
      var c' := c[..|c| - 1];
      var z := c[|c| - 1];
      if b[|b| - 1] == z {
        var b' := b[..|b| - 1];
        if a[|a| - 1] == z {
          SubseqTrans(a[..|a| - 1], b', c');
        } else {
          assert Subseq(a, b');
          SubseqTrans(a, b', c');
          SubseqAppendRight(a, c', z);
          assert c' + [z] == c;
        }
      } else {
        SubseqTrans(a, b, c');
        SubseqAppendRight(a, c', z);
        assert c' + [z] == c;
      }
    }
  }

  /** Members of a subsequence are members of the whole. */
  lemma {:induction false} SubseqMember(a: seq<Sym>, b: seq<Sym>, x: Sym)
    requires Subseq(a, b) && x in a
    ensures x in b
    decreases |b|
  {
    var b' := b[..|b| - 1];
    if a[|a| - 1] == b[|b| - 1] {
      if x != a[|a| - 1] {
        assert x in a[..|a| - 1] by {
          var k :| 0 <= k < |a| && a[k] == x;
          assert a[..|a| - 1][k] == x;
        }
        SubseqMember(a[..|a| - 1], b', x);
      }
    } else {
      SubseqMember(a, b', x);
    }
    assert b == b' + [b[|b| - 1]];
  }
}
