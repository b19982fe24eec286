/** Line breaks: there are no blank lines, and every line starts with an indent. */
module LayoutBreaks {
  import opened Prelude
  import opened Pieces
  import opened Layout
  import opened LayoutExact
  import opened LayoutWidth

  predicate Spaces(s: string) {
    forall c | c in s :: c == ' '
  }

  /** Every line break is followed at once by an indent: a number of steps, perhaps none. */
  predicate Laid(out: seq<Chunk>) {
    forall i | 0 <= i < |out| && out[i] == Text("\n") ::
      i + 1 < |out| && out[i + 1].Text? && Spaces(out[i + 1].s) && |out[i + 1].s| % INDENT_LEN == 0
  }

  /** The indents are whole steps of spaces. */
  predicate Stepped(m: Margins) {
    Spaces(m.prev) && Spaces(m.next) && |m.prev| % INDENT_LEN == 0 && |m.next| % INDENT_LEN == 0
  }

  lemma WriteLaid(st: Page, s: string, code: string)
    requires Laid(st.out)
    ensures s != "\n" ==> Laid(Write(st, s).out)
    ensures Laid(WriteCode(st, code).out)
  {
  }

  lemma BreakLaid(st: Page, indent: string)
    requires Laid(st.out) && Spaces(indent) && |indent| % INDENT_LEN == 0
    ensures Laid(Write(NewlineNoIndent(st), indent).out)
  {
    var out := Write(NewlineNoIndent(st), indent).out;
    assert out == st.out + [Text("\n"), Text(indent)];
    assert indent != "\n" by {
      assert indent == "\n" ==> '\n' in indent;
    }
  }

  lemma PaintLaid(st: Page, colors: Option<string>)
    requires Laid(st.out)
    ensures Laid(Paint(colors, st).out) && Laid(Reset(colors, st).out)
  {
  }

  lemma GapLaid(st: Page, gap: Gap)
    requires Laid(st.out) && NewlineFree(gap.sep)
    ensures Laid(WriteGap(gap, st).out)
  {
    match gap
    case SeqGap(colors, sep) =>
      PaintLaid(st, colors);
      WriteLaid(Paint(colors, st), sep, "");
    case FrameGap(sep) =>
      WriteLaid(st, sep, "");
      WriteLaid(Write(st, sep), " ", "");
  }

  /** For every piece without raw newlines, the printer leaves no blank line and starts every line with an indent. */
  lemma {:induction false} DisplayLaid(p: Piece, m: Margins, st: Page)
    requires NoNewlines(p) && Stepped(m) && Laid(st.out)
    ensures Laid(Display(p, m, st).out)
    decreases Size(p), 2
  {
    BreakLaid(st, m.next);
    match p
    case Str(s) => WriteLaid(Break(|s|, m, st), s, "");
    case Seq(items, _, _, tight) =>
      if items != [] {
        SequenceLaid(p, m, if tight then Break(MinLen(p), m, st) else st);
      }
    case Frame(items, br) =>
      if items == [] {
        EmptyIsSmaller(br);
        assert [br.open, br.close][1..] == [br.close] && [br.close][1..] == [];
        assert NoneNewlines([br.close]);
        DisplayLaid(Empty(br), m, st);
      } else if MinLen(p) <= SpaceHere(m, st) {
        ShortLaid(p, m, st);
      } else if MinLen(p) <= SpaceNewline(m) {
        ShortLaid(p, m, Newline(m, st));
      } else {
        LongLaid(p, m, st);
      }
    case Ref(_) =>
    case Def(_, _) =>
  }

  lemma {:induction false} SequenceLaid(p: Piece, m: Margins, st: Page)
    requires p.Seq? && p.items != []
    requires NoNewlines(p) && Stepped(m) && Laid(st.out)
    ensures Laid(Sequence(p, m, st).out)
    decreases Size(p), 1
  {
    var gap := SeqGap(p.colors, SepOf(p.sep));
    PaintLaid(st, p.colors);
    DisplayLaid(p.items[0], m, Paint(p.colors, st));
    var first := Display(p.items[0], m, Paint(p.colors, st));
    MoreLaid(p.items[1..], gap, m, first);
    PaintLaid(More(p.items[1..], gap, m, first), p.colors);
  }

  lemma {:induction false} MoreLaid(items: seq<Piece>, gap: Gap, m: Margins, st: Page)
    requires NoneNewlines(items) && NewlineFree(gap.sep) && Stepped(m) && Laid(st.out)
    ensures Laid(More(items, gap, m, st).out)
    decreases Sizes(items), 1
  {
    if items != [] {
      GapLaid(st, gap);
      DisplayLaid(items[0], m, WriteGap(gap, st));
      MoreLaid(items[1..], gap, m, Display(items[0], m, WriteGap(gap, st)));
    }
  }

  lemma {:induction false} ShortLaid(p: Piece, m: Margins, st: Page)
    requires p.Frame? && p.items != []
    requires NoNewlines(p) && Stepped(m) && Laid(st.out)
    ensures Laid(Short(p, m, st).out)
    decreases Size(p), 1
  {
    var br, items, gap := p.bracket, p.items, FrameGap(p.bracket.sep);
    DisplayLaid(br.open, m, st);
    var open := Display(br.open, m, st);
    WriteLaid(open, " ", "");
    DisplayLaid(items[0], m, Write(open, " "));
    var first := Display(items[0], m, Write(open, " "));
    MoreLaid(items[1..], gap, m, first);
    WriteLaid(More(items[1..], gap, m, first), " ", "");
    DisplayLaid(br.close, m, Write(More(items[1..], gap, m, first), " "));
  }

  lemma InnerStepped(m: Margins)
    requires Stepped(m)
    ensures Stepped(Inner(m))
  {
  }

  lemma {:induction false} LongLaid(p: Piece, m: Margins, st: Page)
    requires p.Frame? && p.items != []
    requires NoNewlines(p) && Stepped(m) && Laid(st.out)
    ensures Laid(Long(p, m, st).out)
    decreases Size(p), 1
  {
    var br := p.bracket;
    DisplayLaid(br.open, m, st);
    var open := Display(br.open, m, st);
    InnerStepped(m);
    LinesLaid(p.items, br.sep, Inner(m), open);
    var body := Lines(p.items, br.sep, Inner(m), open);
    BreakLaid(body, m.prev);
    DisplayLaid(br.close, Inner(m), Write(NewlineNoIndent(body), m.prev));
  }

  lemma {:induction false} LinesLaid(items: seq<Piece>, sep: string, inner: Margins, st: Page)
    requires NoneNewlines(items) && NewlineFree(sep) && Stepped(inner) && Laid(st.out)
    ensures Laid(Lines(items, sep, inner, st).out)
    decreases Sizes(items), 1
  {
    if items != [] {
      var st1 := Write(NewlineNoIndent(st), inner.prev);
      BreakLaid(st, inner.prev);
      DisplayLaid(items[0], inner, st1);
      if |items| > 1 {
        WriteLaid(Display(items[0], inner, st1), sep, "");
        LinesLaid(items[1..], sep, inner, Write(Display(items[0], inner, st1), sep));
      }
    }
  }

  // ---------------------------------------------------------------------------
  // Where pieces that are broken over lines begin
  // ---------------------------------------------------------------------------

  /** Only tight sequences are kept together: a loose one begins, after its colours, where the line stands. */
  lemma LooseStartsHere(p: Piece, m: Margins, st: Page, painted: Page)
    requires p.Seq? && !p.tight && p.items != []
    requires painted.out == st.out + (if p.colors.Some? then [Code(p.colors.value)] else [])
    requires painted.col == st.col
    ensures Display(p.items[0], m, painted).out <= Display(p, m, st).out
  {
    assert Paint(p.colors, st) == painted;
    MoreAppends(p.items[1..], SeqGap(p.colors, SepOf(p.sep)), m, Display(p.items[0], m, painted));
  }

  /** A frame that fits nowhere has its bracket where the line stands, and its first child on the next line. */
  lemma LongStartsHere(p: Piece, m: Margins, st: Page)
    requires p.Frame? && p.items != [] && MinLen(p) > SpaceHere(m, st) && MinLen(p) > SpaceNewline(m)
    ensures Display(p.bracket.open, m, st).out + [Text("\n"), Text(m.next)] <= Display(p, m, st).out
  {
    var open := Display(p.bracket.open, m, st);
    var body := Lines(p.items, p.bracket.sep, Inner(m), open);
    FirstLineAppends(p.items, p.bracket.sep, Inner(m), open);
    assert Write(NewlineNoIndent(open), m.next).out == open.out + [Text("\n"), Text(m.next)];
    DisplayAppends(p.bracket.close, Inner(m), Write(NewlineNoIndent(body), m.prev));
    assert body.out <= Long(p, m, st).out;
  }
}
