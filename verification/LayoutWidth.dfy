/** Columns and line widths: `line_len` is the true column, and lines stay within the page. */
module LayoutWidth {
  import opened Prelude
  import opened Pieces
  import opened Layout
  import opened LayoutFacts

  // ---------------------------------------------------------------------------
  // The text itself: columns and lines, character by character
  // ---------------------------------------------------------------------------

  predicate NewlineFree(s: string) {
    '\n' !in s
  }

  /** The column after writing `s` from column `col`. */
  function Advance(s: string, col: nat): nat {
    if s == "" then col
    else if s[|s| - 1] == '\n' then 0
    else Advance(s[..|s| - 1], col) + 1
  }

  /** No character of `s`, written from column `col`, goes past `bound`. */
  predicate Within(s: string, col: nat, bound: int) {
    s == "" || (Within(s[..|s| - 1], col, bound) && Advance(s, col) <= bound)
  }

  /** The number of visible characters after the last newline of the output. */
  function Column(out: seq<Chunk>): nat {
    if out == [] then 0
    else
      var before, last := Column(out[..|out| - 1]), out[|out| - 1];
      if last.Text? then Advance(last.s, before) else before
  }

  /** Every line of the output has at most `bound` visible characters. */
  predicate LinesWithin(out: seq<Chunk>, bound: int) {
    out == []
    || (LinesWithin(out[..|out| - 1], bound)
        && (out[|out| - 1].Text? ==> Within(out[|out| - 1].s, Column(out[..|out| - 1]), bound)))
  }

  lemma {:induction false} PlainText(s: string, col: nat, bound: int)
    requires NewlineFree(s)
    ensures Advance(s, col) == col + |s|
    ensures Within(s, col, bound) <==> s == "" || col + |s| <= bound
  {
    if s != "" {
      PlainText(s[..|s| - 1], col, bound);
    }
  }

  lemma Snoc(out: seq<Chunk>, c: Chunk, bound: int)
    ensures Column(out + [c]) == if c.Text? then Advance(c.s, Column(out)) else Column(out)
    ensures LinesWithin(out + [c], bound)
       <==> LinesWithin(out, bound) && (c.Text? ==> Within(c.s, Column(out), bound))
  {
    assert (out + [c])[..|out|] == out;
  }

  // ---------------------------------------------------------------------------
  // `line_len` tracks the column
  // ---------------------------------------------------------------------------

  /** No string of the piece contains a raw newline. */
  predicate NoNewlines(p: Piece)
    decreases Size(p)
  {
    match p
    case Str(s) => NewlineFree(s)
    case Seq(items, _, sep, _) => NewlineFree(SepOf(sep)) && NoneNewlines(items)
    case Frame(items, br) => NewlineFree(br.sep) && NoNewlines(br.open) && NoNewlines(br.close) && NoneNewlines(items)
    case Ref(_) => true
    case Def(_, _) => true
  }

  predicate NoneNewlines(items: seq<Piece>)
    decreases Sizes(items)
  {
    items == [] || (NoNewlines(items[0]) && NoneNewlines(items[1..]))
  }

  predicate Tracks(st: Page) {
    st.col == Column(st.out)
  }

  predicate PlainMargins(m: Margins) {
    NewlineFree(m.prev) && NewlineFree(m.next)
  }

  lemma WriteTracks(st: Page, s: string)
    requires Tracks(st) && NewlineFree(s)
    ensures Tracks(Write(st, s))
  {
    Snoc(st.out, Text(s), 0);
    PlainText(s, st.col, 0);
  }

  lemma PaintTracks(st: Page, colors: Option<string>)
    requires Tracks(st)
    ensures Tracks(Paint(colors, st)) && Tracks(Reset(colors, st))
  {
    Snoc(st.out, Code(C_E), 0);
    if colors.Some? {
      Snoc(st.out, Code(colors.value), 0);
    }
  }

  lemma LineTracks(st: Page, indent: string)
    requires NewlineFree(indent)
    ensures Tracks(NewlineNoIndent(st)) && Tracks(Write(NewlineNoIndent(st), indent))
  {
    Snoc(st.out, Text("\n"), 0);
    WriteTracks(NewlineNoIndent(st), indent);
  }

  lemma GapTracks(st: Page, gap: Gap)
    requires Tracks(st) && NewlineFree(gap.sep)
    ensures Tracks(WriteGap(gap, st))
  {
    match gap
    case SeqGap(colors, sep) =>
      PaintTracks(st, colors);
      WriteTracks(Paint(colors, st), sep);
    case FrameGap(sep) =>
      WriteTracks(st, sep);
      WriteTracks(Write(st, sep), " ");
  }

  /** While no string contains a raw newline, `line_len` is the number of characters after the last newline. */
  lemma {:induction false} DisplayTracks(p: Piece, m: Margins, st: Page)
    requires NoNewlines(p) && PlainMargins(m) && Tracks(st)
    ensures Tracks(Display(p, m, st))
    decreases Size(p), 2
  {
    LineTracks(st, m.next);
    match p
    case Str(s) => WriteTracks(Break(|s|, m, st), s);
    case Seq(items, _, _, tight) =>
      if items != [] {
        SequenceTracks(p, m, if tight then Break(MinLen(p), m, st) else st);
      }
    case Frame(items, br) =>
      if items == [] {
        EmptyIsSmaller(br);
        assert [br.open, br.close][1..] == [br.close] && [br.close][1..] == [];
        assert NoneNewlines([br.close]);
        DisplayTracks(Empty(br), m, st);
      } else if MinLen(p) <= SpaceHere(m, st) {
        ShortTracks(p, m, st);
      } else if MinLen(p) <= SpaceNewline(m) {
        ShortTracks(p, m, Newline(m, st));
      } else {
        LongTracks(p, m, st);
      }
    case Ref(_) =>
    case Def(_, _) =>
  }

  lemma {:induction false} SequenceTracks(p: Piece, m: Margins, st: Page)
    requires p.Seq? && p.items != []
    requires NoNewlines(p) && PlainMargins(m) && Tracks(st)
    ensures Tracks(Sequence(p, m, st))
    decreases Size(p), 1
  {
    var gap := SeqGap(p.colors, SepOf(p.sep));
    PaintTracks(st, p.colors);
    DisplayTracks(p.items[0], m, Paint(p.colors, st));
    var first := Display(p.items[0], m, Paint(p.colors, st));
    MoreTracks(p.items[1..], gap, m, first);
    PaintTracks(More(p.items[1..], gap, m, first), p.colors);
  }

  lemma {:induction false} MoreTracks(items: seq<Piece>, gap: Gap, m: Margins, st: Page)
    requires NoneNewlines(items) && NewlineFree(gap.sep) && PlainMargins(m) && Tracks(st)
    ensures Tracks(More(items, gap, m, st))
    decreases Sizes(items), 1
  {
    if items != [] {
      GapTracks(st, gap);
      DisplayTracks(items[0], m, WriteGap(gap, st));
      MoreTracks(items[1..], gap, m, Display(items[0], m, WriteGap(gap, st)));
    }
  }

  lemma {:induction false} ShortTracks(p: Piece, m: Margins, st: Page)
    requires p.Frame? && p.items != []
    requires NoNewlines(p) && PlainMargins(m) && Tracks(st)
    ensures Tracks(Short(p, m, st))
    decreases Size(p), 1
  {
    var br, items, gap := p.bracket, p.items, FrameGap(p.bracket.sep);
    DisplayTracks(br.open, m, st);
    var open := Display(br.open, m, st);
    WriteTracks(open, " ");
    DisplayTracks(items[0], m, Write(open, " "));
    var first := Display(items[0], m, Write(open, " "));
    MoreTracks(items[1..], gap, m, first);
    WriteTracks(More(items[1..], gap, m, first), " ");
    DisplayTracks(br.close, m, Write(More(items[1..], gap, m, first), " "));
  }

  lemma InnerPlain(m: Margins)
    requires PlainMargins(m)
    ensures PlainMargins(Inner(m)) && |Inner(m).next| == |m.next| + INDENT_LEN
  {
  }

  lemma {:induction false} LongTracks(p: Piece, m: Margins, st: Page)
    requires p.Frame? && p.items != []
    requires NoNewlines(p) && PlainMargins(m) && Tracks(st)
    ensures Tracks(Long(p, m, st))
    decreases Size(p), 1
  {
    var br := p.bracket;
    DisplayTracks(br.open, m, st);
    var open := Display(br.open, m, st);
    InnerPlain(m);
    LinesTracks(p.items, br.sep, Inner(m), open);
    var body := Lines(p.items, br.sep, Inner(m), open);
    LineTracks(body, m.prev);
    DisplayTracks(br.close, Inner(m), Write(NewlineNoIndent(body), m.prev));
  }

  lemma {:induction false} LinesTracks(items: seq<Piece>, sep: string, inner: Margins, st: Page)
    requires NoneNewlines(items) && NewlineFree(sep) && PlainMargins(inner) && Tracks(st)
    ensures Tracks(Lines(items, sep, inner, st))
    decreases Sizes(items), 1
  {
    if items != [] {
      var st1 := Write(NewlineNoIndent(st), inner.prev);
      LineTracks(st, inner.prev);
      DisplayTracks(items[0], inner, st1);
      if |items| > 1 {
        WriteTracks(Display(items[0], inner, st1), sep);
        LinesTracks(items[1..], sep, inner, Write(Display(items[0], inner, st1), sep));
      }
    }
  }

  // ---------------------------------------------------------------------------
  // The width bound
  // ---------------------------------------------------------------------------

  /**
   * Every string is non-empty, free of newlines, and fits on a fresh line at its depth; `n` is the
   * length of `next_indent` there. Every sequence is non-empty and separators take one column at most.
   */
  predicate Fitting(p: Piece, n: nat, width: int)
    decreases Size(p)
  {
    match p
    case Str(s) => s != "" && NewlineFree(s) && n + |s| <= width
    case Seq(items, _, sep, _) =>
      items != [] && |SepOf(sep)| <= 1 && NewlineFree(SepOf(sep)) && AllFitting(items, n, width)
    case Frame(items, br) =>
      |br.sep| <= 1 && NewlineFree(br.sep) && Fitting(br.open, n, width)
      && Fitting(br.close, CloseIndent(items, n), width) && AllFitting(items, n + INDENT_LEN, width)
    case Ref(_) => false
    case Def(_, _) => false
  }

  /** The indent in force at the close bracket: that of the children, if there are any. */
  function CloseIndent(items: seq<Piece>, n: nat): nat {
    if items == [] then n else n + INDENT_LEN
  }

  predicate AllFitting(items: seq<Piece>, n: nat, width: int)
    decreases Sizes(items)
  {
    items == [] || (Fitting(items[0], n, width) && AllFitting(items[1..], n, width))
  }

  /** A fitting piece has a string in it, so the indent leaves room on the line. */
  lemma {:induction false} FittingRoom(p: Piece, n: nat, width: int)
    requires Fitting(p, n, width)
    ensures n < width
    decreases Size(p)
  {
    if p.Seq? {
      FittingRoom(p.items[0], n, width);
    } else if p.Frame? {
      FittingRoom(p.bracket.open, n, width);
    }
  }

  /** `line_len` is right, and no line so far is longer than one column past the page width. */
  predicate Good(st: Page, width: int) {
    Tracks(st) && LinesWithin(st.out, width + 1)
  }

  predicate GoodMargins(m: Margins) {
    PlainMargins(m) && |m.prev| <= |m.next|
  }

  lemma WriteGood(st: Page, s: string, width: int)
    requires Good(st, width) && NewlineFree(s)
    requires s == "" || st.col + |s| <= width + 1
    ensures Good(Write(st, s), width)
  {
    Snoc(st.out, Text(s), width + 1);
    PlainText(s, st.col, width + 1);
  }

  lemma PaintGood(st: Page, colors: Option<string>, width: int)
    requires Good(st, width)
    ensures Good(Paint(colors, st), width) && Good(Reset(colors, st), width)
  {
    PaintTracks(st, colors);
    Snoc(st.out, Code(C_E), width + 1);
    if colors.Some? {
      Snoc(st.out, Code(colors.value), width + 1);
    }
  }

  lemma LineGood(st: Page, indent: string, width: int)
    requires Good(st, width) && NewlineFree(indent) && |indent| <= width
    ensures Good(Write(NewlineNoIndent(st), indent), width)
  {
    Snoc(st.out, Text("\n"), width + 1);
    assert Within("\n", st.col, width + 1);
    WriteGood(NewlineNoIndent(st), indent, width);
  }

  /** What is written on one line, and ends within the page, keeps the lines good. */
  lemma {:induction false} OneLineGood(p: Piece, st: Page, width: int)
    requires NoNewlines(p) && Good(st, width) && st.col + MinLen(p) <= width
    ensures Good(OneLine(p, st), width)
    decreases Size(p)
  {
    MinLenIsLength(p, st);
    match p
    case Str(s) => WriteGood(st, s, width);
    case Seq(items, colors, sep, _) =>
      if items != [] {
        MinLenOfSeq(p);
        var gap, st1 := SeqGap(colors, SepOf(sep)), Paint(colors, st);
        PaintGood(st, colors, width);
        OneLineGood(items[0], st1, width);
        MinLenIsLength(items[0], st1);
        JoinedGood(items[1..], gap, OneLine(items[0], st1), width);
        PaintGood(Joined(items[1..], gap, OneLine(items[0], st1)), colors, width);
      }
    case Frame(items, br) =>
      MinLenIsLength(br.open, st);
      var open := OneLine(br.open, st);
      if items == [] {
        OneLineGood(br.open, st, width);
        WriteGood(open, "", width);
        OneLineGood(br.close, Write(open, ""), width);
      } else {
        MinLenOfFrame(p);
        OneLineGood(br.open, st, width);
        WriteGood(open, " ", width);
        var first := OneLine(items[0], Write(open, " "));
        OneLineGood(items[0], Write(open, " "), width);
        MinLenIsLength(items[0], Write(open, " "));
        var rest := Joined(items[1..], FrameGap(br.sep), first);
        JoinedGood(items[1..], FrameGap(br.sep), first, width);
        JoinedLength(items[1..], FrameGap(br.sep), first);
        WriteGood(rest, " ", width);
        OneLineGood(br.close, Write(rest, " "), width);
      }
    case Ref(_) =>
    case Def(_, _) =>
  }

  lemma {:induction false} JoinedGood(items: seq<Piece>, gap: Gap, st: Page, width: int)
    requires NoneNewlines(items) && NewlineFree(gap.sep) && Good(st, width)
    requires st.col + Total(items, GapLen(gap)) <= width
    ensures Good(Joined(items, gap, st), width)
    decreases Sizes(items)
  {
    if items != [] {
      var st1 := WriteGap(gap, st);
      GapGood(st, gap, width);
      OneLineGood(items[0], st1, width);
      MinLenIsLength(items[0], st1);
      JoinedGood(items[1..], gap, OneLine(items[0], st1), width);
    }
  }

  lemma GapGood(st: Page, gap: Gap, width: int)
    requires Good(st, width) && NewlineFree(gap.sep)
    requires st.col + GapLen(gap) <= width + 1
    ensures Good(WriteGap(gap, st), width)
  {
    match gap
    case SeqGap(colors, sep) =>
      PaintGood(st, colors, width);
      WriteGood(Paint(colors, st), sep, width);
    case FrameGap(sep) =>
      WriteGood(st, sep, width);
      WriteGood(Write(st, sep), " ", width);
  }

  lemma {:induction false} FittingPlain(p: Piece, n: nat, width: int)
    requires Fitting(p, n, width)
    ensures NoNewlines(p)
    decreases Size(p)
  {
    match p
    case Str(s) =>
    case Seq(items, _, _, _) => AllFittingPlain(items, n, width);
    case Frame(items, br) =>
      FittingPlain(br.open, n, width);
      FittingPlain(br.close, CloseIndent(items, n), width);
      AllFittingPlain(items, n + INDENT_LEN, width);
    case Ref(_) =>
    case Def(_, _) =>
  }

  lemma {:induction false} AllFittingPlain(items: seq<Piece>, n: nat, width: int)
    requires AllFitting(items, n, width)
    ensures NoneNewlines(items)
    decreases Sizes(items)
  {
    if items != [] {
      FittingPlain(items[0], n, width);
      AllFittingPlain(items[1..], n, width);
    }
  }

  /**
   * The width bound. A fitting piece, displayed from any column up to one past the page width, never
   * makes a line longer than that, and ends within the page. The one extra column is the separator or
   * comma that is written without a check.
   */
  lemma {:induction false} DisplayWithin(p: Piece, m: Margins, st: Page)
    requires Fitting(p, |m.next|, m.width) && GoodMargins(m)
    requires Good(st, m.width) && st.col <= m.width + 1
    ensures Good(Display(p, m, st), m.width) && Display(p, m, st).col <= m.width
    decreases Size(p), 2
  {
    FittingRoom(p, |m.next|, m.width);
    LineGood(st, m.next, m.width);
    match p
    case Str(s) => WriteGood(Break(|s|, m, st), s, m.width);
    case Seq(items, _, _, tight) =>
      SequenceWithin(p, m, if tight then Break(MinLen(p), m, st) else st);
    case Frame(items, br) =>
      if items == [] {
        EmptyIsSmaller(br);
        EmptyFitting(br, |m.next|, m.width);
        DisplayWithin(Empty(br), m, st);
      } else {
        FittingPlain(p, |m.next|, m.width);
        if MinLen(p) <= SpaceHere(m, st) {
          ShortWithin(p, m, st);
        } else if MinLen(p) <= SpaceNewline(m) {
          ShortWithin(p, m, Newline(m, st));
        } else {
          LongWithin(p, m, st);
        }
      }
    case Ref(_) =>
    case Def(_, _) =>
  }

  lemma ShortWithin(p: Piece, m: Margins, st: Page)
    requires p.Frame? && p.items != [] && NoNewlines(p)
    requires Good(st, m.width) && MinLen(p) <= SpaceHere(m, st)
    ensures Good(Short(p, m, st), m.width) && Short(p, m, st).col <= m.width
  {
    FitsShort(p, m, st);
    MinLenIsLength(p, st);
    MinLenOfFrame(p);
    OneLineGood(p, st, m.width);
  }

  lemma EmptyFitting(br: Bracket, n: nat, width: int)
    requires Fitting(Frame([], br), n, width)
    ensures Fitting(Empty(br), n, width)
  {
    assert [br.open, br.close][1..] == [br.close] && [br.close][1..] == [];
    assert AllFitting([br.close], n, width);
  }

  lemma {:induction false} SequenceWithin(p: Piece, m: Margins, st: Page)
    requires p.Seq? && Fitting(p, |m.next|, m.width) && GoodMargins(m)
    requires Good(st, m.width) && st.col <= m.width + 1
    ensures Good(Sequence(p, m, st), m.width) && Sequence(p, m, st).col <= m.width
    decreases Size(p), 1
  {
    var gap, st1 := SeqGap(p.colors, SepOf(p.sep)), Paint(p.colors, st);
    PaintGood(st, p.colors, m.width);
    DisplayWithin(p.items[0], m, st1);
    var first := Display(p.items[0], m, st1);
    MoreWithin(p.items[1..], gap, m, first);
    PaintGood(More(p.items[1..], gap, m, first), p.colors, m.width);
  }

  lemma {:induction false} MoreWithin(items: seq<Piece>, gap: Gap, m: Margins, st: Page)
    requires AllFitting(items, |m.next|, m.width) && GoodMargins(m)
    requires GapLen(gap) <= 1 && NewlineFree(gap.sep)
    requires Good(st, m.width) && st.col <= m.width
    ensures Good(More(items, gap, m, st), m.width) && More(items, gap, m, st).col <= m.width
    decreases Sizes(items), 1
  {
    if items != [] {
      GapGood(st, gap, m.width);
      DisplayWithin(items[0], m, WriteGap(gap, st));
      MoreWithin(items[1..], gap, m, Display(items[0], m, WriteGap(gap, st)));
    }
  }

  lemma {:induction false} LongWithin(p: Piece, m: Margins, st: Page)
    requires p.Frame? && p.items != []
    requires Fitting(p, |m.next|, m.width) && GoodMargins(m)
    requires Good(st, m.width) && st.col <= m.width + 1
    ensures Good(Long(p, m, st), m.width) && Long(p, m, st).col <= m.width
    decreases Size(p), 1
  {
    var br := p.bracket;
    FittingRoom(p, |m.next|, m.width);
    InnerPlain(m);
    DisplayWithin(br.open, m, st);
    var open := Display(br.open, m, st);
    LinesFit(p.items, br.sep, Inner(m), open);
    var body := Lines(p.items, br.sep, Inner(m), open);
    LineGood(body, m.prev, m.width);
    DisplayWithin(br.close, Inner(m), Write(NewlineNoIndent(body), m.prev));
  }

  lemma {:induction false} LinesFit(items: seq<Piece>, sep: string, inner: Margins, st: Page)
    requires AllFitting(items, |inner.next|, inner.width) && GoodMargins(inner) && |inner.prev| <= inner.width
    requires |sep| <= 1 && NewlineFree(sep)
    requires Good(st, inner.width)
    ensures Good(Lines(items, sep, inner, st), inner.width)
    decreases Sizes(items), 1
  {
    if items != [] {
      var st1 := Write(NewlineNoIndent(st), inner.prev);
      LineGood(st, inner.prev, inner.width);
      DisplayWithin(items[0], inner, st1);
      if |items| > 1 {
        WriteGood(Display(items[0], inner, st1), sep, inner.width);
        LinesFit(items[1..], sep, inner, Write(Display(items[0], inner, st1), sep));
      }
    }
  }
}
