/** What the layout engine guarantees, for every piece, width and starting context. */
module LayoutFacts {
  import opened Prelude
  import opened Pieces
  import opened Layout

  // ---------------------------------------------------------------------------
  // One line: `min_len` is exact, and what fits is not split
  // ---------------------------------------------------------------------------

  /** A piece written on one line whatever the width: the reference the layouts are compared with. */
  function OneLine(p: Piece, st: Page): Page
    decreases Size(p), 0
  {
    match p
    case Str(s) => Write(st, s)
    case Seq(items, colors, sep, _) =>
      if items == [] then st
      else Reset(colors, Joined(items[1..], SeqGap(colors, SepOf(sep)), OneLine(items[0], Paint(colors, st))))
    case Frame(items, br) =>
      if items == [] then OneLine(br.close, Write(OneLine(br.open, st), ""))
      else
        var first := OneLine(items[0], Write(OneLine(br.open, st), " "));
        OneLine(br.close, Write(Joined(items[1..], FrameGap(br.sep), first), " "))
    case Ref(_) => st
    case Def(_, _) => st
  }

  function Joined(items: seq<Piece>, gap: Gap, st: Page): Page
    decreases Sizes(items), 0
  {
    if items == [] then st else Joined(items[1..], gap, OneLine(items[0], WriteGap(gap, st)))
  }

  /** The columns of children that each follow a gap of `len` columns. */
  function Total(items: seq<Piece>, len: nat): nat {
    if items == [] then 0 else len + MinLen(items[0]) + Total(items[1..], len)
  }

  lemma {:induction false} TotalIs(items: seq<Piece>, len: nat)
    ensures Total(items, len) == |items| * len + MinLens(items)
  {
    if items != [] {
      TotalIs(items[1..], len);
      assert |items| * len == len + (|items| - 1) * len;
    }
  }

  lemma MinLenOfSeq(p: Piece)
    requires p.Seq? && p.items != []
    ensures MinLen(p) == MinLen(p.items[0]) + Total(p.items[1..], |SepOf(p.sep)|)
  {
    TotalIs(p.items[1..], |SepOf(p.sep)|);
  }

  lemma MinLenOfFrame(p: Piece)
    requires p.Frame? && p.items != []
    ensures MinLen(p) == MinLen(p.bracket.open) + 1 + MinLen(p.items[0])
                         + Total(p.items[1..], |p.bracket.sep| + 1) + 1 + MinLen(p.bracket.close)
  {
    TotalIs(p.items[1..], |p.bracket.sep| + 1);
  }

  /** `min_len` is exactly the number of columns of the one-line form. */
  lemma {:induction false} MinLenIsLength(p: Piece, st: Page)
    ensures OneLine(p, st).col == st.col + MinLen(p)
    decreases Size(p), 0
  {
    match p
    case Str(s) =>
    case Seq(items, colors, sep, _) =>
      if items != [] {
        MinLenOfSeq(p);
        MinLenIsLength(items[0], Paint(colors, st));
        JoinedLength(items[1..], SeqGap(colors, SepOf(sep)), OneLine(items[0], Paint(colors, st)));
      }
    case Frame(items, br) =>
      MinLenIsLength(br.open, st);
      var open := OneLine(br.open, st);
      if items == [] {
        MinLenIsLength(br.close, Write(open, ""));
      } else {
        MinLenOfFrame(p);
        MinLenIsLength(items[0], Write(open, " "));
        var first := OneLine(items[0], Write(open, " "));
        JoinedLength(items[1..], FrameGap(br.sep), first);
        MinLenIsLength(br.close, Write(Joined(items[1..], FrameGap(br.sep), first), " "));
      }
    case Ref(_) =>
    case Def(_, _) =>
  }

  lemma {:induction false} JoinedLength(items: seq<Piece>, gap: Gap, st: Page)
    ensures Joined(items, gap, st).col == st.col + Total(items, GapLen(gap))
    decreases Sizes(items), 0
  {
    if items != [] {
      MinLenIsLength(items[0], WriteGap(gap, st));
      JoinedLength(items[1..], gap, OneLine(items[0], WriteGap(gap, st)));
    }
  }

  /**
   * Whatever fits in the space left on the line is written there in its one-line form:
   * no line break anywhere inside it.
   */
  lemma {:induction false} FitsHere(p: Piece, m: Margins, st: Page)
    requires MinLen(p) <= SpaceHere(m, st)
    ensures Display(p, m, st) == OneLine(p, st)
    decreases Size(p), 1
  {
    match p
    case Str(s) =>
    case Seq(items, _, _, _) =>
      if items != [] {
        FitsSequence(p, m, st);
      }
    case Frame(items, br) =>
      if items == [] {
        FitsEmpty(br, m, st);
      } else {
        FitsShort(p, m, st);
      }
    case Ref(_) =>
    case Def(_, _) =>
  }

  lemma {:induction false} FitsSequence(p: Piece, m: Margins, st: Page)
    requires p.Seq? && p.items != []
    requires MinLen(p) <= SpaceHere(m, st)
    ensures Sequence(p, m, st) == OneLine(p, st)
    decreases Size(p), 0
  {
    MinLenOfSeq(p);
    var st1 := Paint(p.colors, st);
    FitsHere(p.items[0], m, st1);
    MinLenIsLength(p.items[0], st1);
    FitsMore(p.items[1..], SeqGap(p.colors, SepOf(p.sep)), m, OneLine(p.items[0], st1));
  }

  lemma {:induction false} FitsEmpty(br: Bracket, m: Margins, st: Page)
    requires MinLen(br.open) + MinLen(br.close) <= SpaceHere(m, st)
    ensures Display(Frame([], br), m, st) == OneLine(br.close, Write(OneLine(br.open, st), ""))
    decreases Size(Frame([], br)), 0
  {
    var close := [br.close];
    assert [br.open, br.close][1..] == close && close[1..] == [];
    MinLenOfSeq(Empty(br));
    FitsHere(br.open, m, st);
    MinLenIsLength(br.open, st);
    var open := OneLine(br.open, st);
    FitsHere(br.close, m, Write(open, ""));
    var gap := SeqGap(None, "");
    assert More(close, gap, m, open) == More([], gap, m, OneLine(br.close, Write(open, "")));
    assert Display(Empty(br), m, st) == Sequence(Empty(br), m, st) == More(close, gap, m, open);
  }

  lemma {:induction false} FitsShort(p: Piece, m: Margins, st: Page)
    requires p.Frame? && p.items != []
    requires MinLen(p) <= SpaceHere(m, st)
    ensures Short(p, m, st) == OneLine(p, st)
    decreases Size(p), 0
  {
    MinLenOfFrame(p);
    var br, items := p.bracket, p.items;
    FitsHere(br.open, m, st);
    MinLenIsLength(br.open, st);
    var open := Write(OneLine(br.open, st), " ");
    FitsHere(items[0], m, open);
    MinLenIsLength(items[0], open);
    var first := OneLine(items[0], open);
    FitsMore(items[1..], FrameGap(br.sep), m, first);
    JoinedLength(items[1..], FrameGap(br.sep), first);
    FitsHere(br.close, m, Write(Joined(items[1..], FrameGap(br.sep), first), " "));
  }

  lemma {:induction false} FitsMore(items: seq<Piece>, gap: Gap, m: Margins, st: Page)
    requires Total(items, GapLen(gap)) <= SpaceHere(m, st)
    ensures More(items, gap, m, st) == Joined(items, gap, st)
    decreases Sizes(items), 0
  {
    if items != [] {
      var st1 := WriteGap(gap, st);
      FitsHere(items[0], m, st1);
      MinLenIsLength(items[0], st1);
      FitsMore(items[1..], gap, m, OneLine(items[0], st1));
    }
  }

  /** A piece the printer keeps whole: a string, a frame with children or a tight sequence. */
  predicate KeptWhole(p: Piece) {
    p.Str? || (p.Frame? && p.items != []) || (p.Seq? && p.items != [] && p.tight)
  }

  /**
   * A string, a frame with children or a tight sequence that fits on a fresh line is never split:
   * it is written in its one-line form, here if it fits here and otherwise after one line break and the indent.
   */
  lemma NeverSplit(p: Piece, m: Margins, st: Page)
    requires KeptWhole(p)
    requires MinLen(p) <= SpaceNewline(m)
    ensures Display(p, m, st)
         == OneLine(p, if MinLen(p) <= SpaceHere(m, st) then st
                       else Page(st.out + [Text("\n"), Text(m.next)], |m.next|))
  {
    assert Newline(m, st) == Page(st.out + [Text("\n"), Text(m.next)], |m.next|);
    if MinLen(p) <= SpaceHere(m, st) {
      FitsHere(p, m, st);
    } else if p.Frame? {
      FitsShort(p, m, Newline(m, st));
    } else if p.Seq? {
      FitsSequence(p, m, Newline(m, st));
    }
  }

  // ---------------------------------------------------------------------------
  // Layout changes only whitespace
  // ---------------------------------------------------------------------------

  predicate Blank(s: string) {
    forall c | c in s :: c == ' ' || c == '\n'
  }

  /**
   * What a piece says, chunk by chunk: its strings, a sequence's colours before its first child, with the
   * separator before each other one, and a reset after the last; a frame's brackets and separators.
   */
  function Flat(p: Piece): seq<Chunk>
    decreases Size(p), 0
  {
    match p
    case Str(s) => [Text(s)]
    case Seq(items, colors, sep, _) =>
      var between := Text(if sep.Some? then sep.value else " ");
      if items == [] then []
      else if colors.None? then FlatAll(items, [between])
      else [Code(colors.value)] + FlatAll(items, [Code(colors.value), between]) + [Code("\U{1B}[0m")]
    case Frame(items, br) =>
      if items == [] then Flat(br.open) + [Text("")] + Flat(br.close)
      else Flat(br.open) + [Text(" ")] + FlatAll(items, [Text(br.sep), Text(" ")]) + [Text(" ")] + Flat(br.close)
    case _ => []
  }

  function FlatAll(items: seq<Piece>, between: seq<Chunk>): seq<Chunk>
    decreases Sizes(items), 0
  {
    if items == [] then []
    else if |items| == 1 then Flat(items[0])
    else Flat(items[0]) + between + FlatAll(items[1..], between)
  }

  predicate GapSays(gap: Gap, between: seq<Chunk>) {
    match gap
    case SeqGap(None, sep) => between == [Text(sep)]
    case SeqGap(Some(c), sep) => between == [Code(c), Text(sep)]
    case FrameGap(sep) => between == [Text(sep), Text(" ")]
  }

  /** The one-line form is exactly that. */
  lemma {:induction false} OneLineFlat(p: Piece, st: Page)
    ensures OneLine(p, st).out == st.out + Flat(p)
    decreases Size(p), 1
  {
    match p
    case Str(s) =>
    case Seq(items, colors, sep, _) =>
      if items != [] {
        var st1, gap := Paint(colors, st), SeqGap(colors, SepOf(sep));
        var between := if colors.None? then [Text(SepOf(sep))] else [Code(colors.value), Text(SepOf(sep))];
        JoinedFlat(items, gap, st1, between);
      }
    case Frame(items, br) => FrameFlat(p, st);
    case Ref(_) =>
    case Def(_, _) =>
  }

  lemma {:induction false} FrameFlat(p: Piece, st: Page)
    requires p.Frame?
    ensures OneLine(p, st).out == st.out + Flat(p)
    decreases Size(p), 0
  {
    OneLineFlat(p.bracket.open, st);
    if p.items == [] {
      OneLineFlat(p.bracket.close, Write(OneLine(p.bracket.open, st), ""));
    } else {
      BodyFlat(p.items, p.bracket, st);
      FrameParts(st.out, Flat(p.bracket.open), FlatAll(p.items, [Text(p.bracket.sep), Text(" ")]),
                 Flat(p.bracket.close));
    }
  }

  lemma {:induction false} BodyFlat(items: seq<Piece>, br: Bracket, st: Page)
    requires items != []
    ensures OneLine(Frame(items, br), st).out
         == (((st.out + Flat(br.open)) + [Text(" ")]) + FlatAll(items, [Text(br.sep), Text(" ")])) + [Text(" ")]
            + Flat(br.close)
    decreases Size(Frame(items, br)), -1
  {
    var open := Write(OneLine(br.open, st), " ");
    OneLineFlat(br.open, st);
    JoinedFlat(items, FrameGap(br.sep), open, [Text(br.sep), Text(" ")]);
    var rest := Joined(items[1..], FrameGap(br.sep), OneLine(items[0], open));
    OneLineFlat(br.close, Write(rest, " "));
  }

  lemma FrameParts(out: seq<Chunk>, open: seq<Chunk>, body: seq<Chunk>, close: seq<Chunk>)
    ensures (((out + open) + [Text(" ")]) + body) + [Text(" ")] + close
         == out + (open + [Text(" ")] + body + [Text(" ")] + close)
  {
  }

  lemma {:induction false} JoinedFlat(items: seq<Piece>, gap: Gap, st: Page, between: seq<Chunk>)
    requires items != [] && GapSays(gap, between)
    ensures Joined(items[1..], gap, OneLine(items[0], st)).out == st.out + FlatAll(items, between)
    decreases Sizes(items), 0
  {
    OneLineFlat(items[0], st);
    var first, rest := OneLine(items[0], st), items[1..];
    if rest != [] {
      var st1 := WriteGap(gap, first);
      GapFlat(gap, first, between);
      JoinedFlat(rest, gap, st1, between);
      JoinedStep(rest, gap, first);
      FourParts(st.out, Flat(items[0]), between, FlatAll(rest, between));
    }
  }

  lemma JoinedStep(items: seq<Piece>, gap: Gap, st: Page)
    requires items != []
    ensures Joined(items, gap, st) == Joined(items[1..], gap, OneLine(items[0], WriteGap(gap, st)))
  {
  }

  lemma FourParts(a: seq<Chunk>, b: seq<Chunk>, c: seq<Chunk>, d: seq<Chunk>)
    ensures a + b + c + d == a + (b + c + d)
  {
  }

  lemma GapFlat(gap: Gap, st: Page, between: seq<Chunk>)
    requires GapSays(gap, between)
    ensures WriteGap(gap, st).out == st.out + between
  {
  }

  /** The output without the text that is nothing but spaces and newlines. */
  function Ink(out: seq<Chunk>): seq<Chunk> {
    if out == [] then []
    else
      var last := out[|out| - 1];
      Ink(out[..|out| - 1]) + if last.Text? && Blank(last.s) then [] else [last]
  }

  ghost predicate SameInk(a: Page, b: Page) {
    Ink(a.out) == Ink(b.out)
  }

  lemma InkSnoc(out: seq<Chunk>, c: Chunk)
    ensures Ink(out + [c]) == Ink(out) + if c.Text? && Blank(c.s) then [] else [c]
  {
    assert (out + [c])[..|out|] == out;
  }

  lemma WriteInk(a: Page, b: Page, s: string)
    requires SameInk(a, b)
    ensures SameInk(Write(a, s), Write(b, s))
    ensures Blank(s) ==> SameInk(Write(a, s), b)
  {
    InkSnoc(a.out, Text(s));
    InkSnoc(b.out, Text(s));
  }

  lemma PaintInk(a: Page, b: Page, colors: Option<string>)
    requires SameInk(a, b)
    ensures SameInk(Paint(colors, a), Paint(colors, b))
    ensures SameInk(Reset(colors, a), Reset(colors, b))
  {
    if colors.Some? {
      InkSnoc(a.out, Code(colors.value));
      InkSnoc(b.out, Code(colors.value));
      InkSnoc(a.out, Code(C_E));
      InkSnoc(b.out, Code(C_E));
    }
  }

  lemma GapInk(a: Page, b: Page, gap: Gap)
    requires SameInk(a, b)
    ensures SameInk(WriteGap(gap, a), WriteGap(gap, b))
  {
    match gap
    case SeqGap(colors, sep) =>
      PaintInk(a, b, colors);
      WriteInk(Paint(colors, a), Paint(colors, b), sep);
    case FrameGap(sep) =>
      WriteInk(a, b, sep);
      WriteInk(Write(a, sep), Write(b, sep), " ");
  }

  /** A new line and an indent leave the ink as it was. */
  lemma LineInk(a: Page, b: Page, indent: string)
    requires SameInk(a, b) && Blank(indent)
    ensures SameInk(Write(NewlineNoIndent(a), indent), b)
  {
    InkSnoc(a.out, Text("\n"));
    WriteInk(NewlineNoIndent(a), b, indent);
  }

  lemma {:induction false} InkAppend(a: seq<Chunk>, b: seq<Chunk>)
    ensures Ink(a + b) == Ink(a) + Ink(b)
  {
    if b == [] {
      assert a + b == a;
    } else {
      var front, last := b[..|b| - 1], b[|b| - 1];
      assert a + b == (a + front) + [last] && b == front + [last];
      InkAppend(a, front);
      InkSnoc(a + front, last);
      InkSnoc(front, last);
    }
  }

  /**
   * For every piece, width and starting context, what the printer writes is what the piece says, up to
   * whitespace: the same strings, none of them split, and the same colour codes, in the same order.
   */
  lemma OnlyWhitespace(p: Piece, m: Margins, st: Page)
    requires Blank(m.prev) && Blank(m.next)
    ensures Ink(Display(p, m, st).out) == Ink(st.out) + Ink(Flat(p))
  {
    DisplayInk(p, m, st, st);
    OneLineFlat(p, st);
    InkAppend(st.out, Flat(p));
  }

  lemma {:induction false} DisplayInk(p: Piece, m: Margins, st: Page, flat: Page)
    requires Blank(m.prev) && Blank(m.next)
    requires SameInk(st, flat)
    ensures SameInk(Display(p, m, st), OneLine(p, flat))
    decreases Size(p), 2
  {
    LineInk(st, flat, m.next);
    match p
    case Str(s) =>
      WriteInk(Break(|s|, m, st), flat, s);
    case Seq(items, colors, _, tight) =>
      if items != [] {
        SequenceInk(p, m, if tight then Break(MinLen(p), m, st) else st, flat);
      }
    case Frame(items, br) =>
      if items == [] {
        EmptyInk(br, m, st, flat);
      } else if MinLen(p) <= SpaceHere(m, st) {
        ShortInk(p, m, st, flat);
      } else if MinLen(p) <= SpaceNewline(m) {
        ShortInk(p, m, Newline(m, st), flat);
      } else {
        LongInk(p, m, st, flat);
      }
    case Ref(_) =>
    case Def(_, _) =>
  }

  lemma {:induction false} SequenceInk(p: Piece, m: Margins, st: Page, flat: Page)
    requires p.Seq? && p.items != []
    requires Blank(m.prev) && Blank(m.next)
    requires SameInk(st, flat)
    ensures SameInk(Sequence(p, m, st), OneLine(p, flat))
    decreases Size(p), 1
  {
    var st1, flat1 := Paint(p.colors, st), Paint(p.colors, flat);
    var gap := SeqGap(p.colors, SepOf(p.sep));
    PaintInk(st, flat, p.colors);
    DisplayInk(p.items[0], m, st1, flat1);
    MoreInk(p.items[1..], gap, m, Display(p.items[0], m, st1), OneLine(p.items[0], flat1));
    PaintInk(More(p.items[1..], gap, m, Display(p.items[0], m, st1)),
             Joined(p.items[1..], gap, OneLine(p.items[0], flat1)), p.colors);
  }

  lemma {:induction false} EmptyInk(br: Bracket, m: Margins, st: Page, flat: Page)
    requires Blank(m.prev) && Blank(m.next)
    requires SameInk(st, flat)
    ensures SameInk(Display(Empty(br), m, st), OneLine(Frame([], br), flat))
    decreases Size(Frame([], br)), 1
  {
    EmptyIsSmaller(br);
    DisplayInk(Empty(br), m, st, flat);
    OneLineOfEmpty(br, flat);
  }

  lemma OneLineOfEmpty(br: Bracket, st: Page)
    ensures OneLine(Empty(br), st) == OneLine(Frame([], br), st)
  {
    var close := [br.close];
    var gap := SeqGap(None, "");
    assert [br.open, br.close][1..] == close && close[1..] == [];
    assert Joined(close, gap, OneLine(br.open, st))
        == Joined([], gap, OneLine(br.close, Write(OneLine(br.open, st), "")));
  }

  lemma {:induction false} ShortInk(p: Piece, m: Margins, st: Page, flat: Page)
    requires p.Frame? && p.items != []
    requires Blank(m.prev) && Blank(m.next)
    requires SameInk(st, flat)
    ensures SameInk(Short(p, m, st), OneLine(p, flat))
    decreases Size(p), 1
  {
    var br, items, gap := p.bracket, p.items, FrameGap(p.bracket.sep);
    DisplayInk(br.open, m, st, flat);
    WriteInk(Display(br.open, m, st), OneLine(br.open, flat), " ");
    var st1, flat1 := Write(Display(br.open, m, st), " "), Write(OneLine(br.open, flat), " ");
    DisplayInk(items[0], m, st1, flat1);
    var st2, flat2 := Display(items[0], m, st1), OneLine(items[0], flat1);
    MoreInk(items[1..], gap, m, st2, flat2);
    var st3, flat3 := More(items[1..], gap, m, st2), Joined(items[1..], gap, flat2);
    WriteInk(st3, flat3, " ");
    DisplayInk(br.close, m, Write(st3, " "), Write(flat3, " "));
  }

  lemma {:induction false} MoreInk(items: seq<Piece>, gap: Gap, m: Margins, st: Page, flat: Page)
    requires Blank(m.prev) && Blank(m.next)
    requires SameInk(st, flat)
    ensures SameInk(More(items, gap, m, st), Joined(items, gap, flat))
    decreases Sizes(items), 1
  {
    if items != [] {
      var st1, flat1 := WriteGap(gap, st), WriteGap(gap, flat);
      GapInk(st, flat, gap);
      DisplayInk(items[0], m, st1, flat1);
      MoreInk(items[1..], gap, m, Display(items[0], m, st1), OneLine(items[0], flat1));
    }
  }

  lemma {:induction false} LongInk(p: Piece, m: Margins, st: Page, flat: Page)
    requires p.Frame? && p.items != []
    requires Blank(m.prev) && Blank(m.next)
    requires SameInk(st, flat)
    ensures SameInk(Long(p, m, st), OneLine(p, flat))
    decreases Size(p), 1
  {
    var br, items, gap := p.bracket, p.items, FrameGap(p.bracket.sep);
    DisplayInk(br.open, m, st, flat);
    var st1, flat1 := Display(br.open, m, st), OneLine(br.open, flat);
    WriteInk(flat1, st1, " ");
    LinesInk(items, br.sep, Inner(m), st1, Write(flat1, " "));
    var st2 := Lines(items, br.sep, Inner(m), st1);
    var flat2 := Joined(items[1..], gap, OneLine(items[0], Write(flat1, " ")));
    LineInk(st2, flat2, m.prev);
    var st3 := Write(NewlineNoIndent(st2), m.prev);
    WriteInk(flat2, st3, " ");
    DisplayInk(br.close, Inner(m), st3, Write(flat2, " "));
  }

  lemma {:induction false} LinesInk(items: seq<Piece>, sep: string, inner: Margins, st: Page, flat: Page)
    requires items != []
    requires Blank(inner.prev) && Blank(inner.next)
    requires SameInk(st, flat)
    ensures SameInk(Lines(items, sep, inner, st), Joined(items[1..], FrameGap(sep), OneLine(items[0], flat)))
    decreases Sizes(items), 1
  {
    var st1 := Write(NewlineNoIndent(st), inner.prev);
    LineInk(st, flat, inner.prev);
    DisplayInk(items[0], inner, st1, flat);
    var st2, flat2 := Display(items[0], inner, st1), OneLine(items[0], flat);
    if |items| > 1 {
      WriteInk(st2, flat2, sep);
      WriteInk(Write(flat2, sep), Write(st2, sep), " ");
      LinesInk(items[1..], sep, inner, Write(st2, sep), Write(Write(flat2, sep), " "));
    }
  }
}
