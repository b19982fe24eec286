/**
 * Exactly when every line stays within the page: a piece's lengths and its indentation decide it, and the
 * column it starts at matters only up to the indent.
 */
module LayoutExact {
  import opened Prelude
  import opened Pieces
  import opened Layout
  import opened LayoutFacts
  import opened LayoutWidth

  // ---------------------------------------------------------------------------
  // The printer only appends, so a line that is too long stays too long
  // ---------------------------------------------------------------------------

  lemma {:induction false} PrefixWithin(a: seq<Chunk>, b: seq<Chunk>, bound: int)
    requires a <= b && LinesWithin(b, bound)
    ensures LinesWithin(a, bound)
    decreases |b|
  {
    if |a| < |b| {
      PrefixWithin(a, b[..|b| - 1], bound);
    } else {
      assert a == b;
    }
  }

  lemma {:induction false} DisplayAppends(p: Piece, m: Margins, st: Page)
    ensures st.out <= Display(p, m, st).out
    decreases Size(p), 2
  {
    match p
    case Str(s) =>
    case Frame(items, br) =>
      if items == [] {
        EmptyIsSmaller(br);
        DisplayAppends(Empty(br), m, st);
      } else if MinLen(p) <= SpaceHere(m, st) {
        ShortAppends(p, m, st);
      } else if MinLen(p) <= SpaceNewline(m) {
        ShortAppends(p, m, Newline(m, st));
      } else {
        LongAppends(p, m, st);
      }
    case Seq(items, _, _, tight) =>
      if items != [] {
        SequenceAppends(p, m, if tight then Break(MinLen(p), m, st) else st);
      }
    case Ref(_) =>
    case Def(_, _) =>
  }

  lemma {:induction false} SequenceAppends(p: Piece, m: Margins, st: Page)
    requires p.Seq? && p.items != []
    ensures st.out <= Sequence(p, m, st).out
    decreases Size(p), 1
  {
    DisplayAppends(p.items[0], m, Paint(p.colors, st));
    MoreAppends(p.items[1..], SeqGap(p.colors, SepOf(p.sep)), m, Display(p.items[0], m, Paint(p.colors, st)));
  }

  lemma {:induction false} MoreAppends(items: seq<Piece>, gap: Gap, m: Margins, st: Page)
    ensures st.out <= More(items, gap, m, st).out
    decreases Sizes(items), 1
  {
    if items != [] {
      DisplayAppends(items[0], m, WriteGap(gap, st));
      MoreAppends(items[1..], gap, m, Display(items[0], m, WriteGap(gap, st)));
    }
  }

  lemma {:induction false} ShortAppends(p: Piece, m: Margins, st: Page)
    requires p.Frame? && p.items != []
    ensures st.out <= Short(p, m, st).out
    decreases Size(p), 1
  {
    var br := p.bracket;
    DisplayAppends(br.open, m, st);
    var open := Write(Display(br.open, m, st), " ");
    DisplayAppends(p.items[0], m, open);
    var first := Display(p.items[0], m, open);
    MoreAppends(p.items[1..], FrameGap(br.sep), m, first);
    DisplayAppends(br.close, m, Write(More(p.items[1..], FrameGap(br.sep), m, first), " "));
  }

  lemma {:induction false} LongAppends(p: Piece, m: Margins, st: Page)
    requires p.Frame? && p.items != []
    ensures st.out <= Long(p, m, st).out
    decreases Size(p), 1
  {
    var br := p.bracket;
    DisplayAppends(br.open, m, st);
    LinesAppend(p.items, br.sep, Inner(m), Display(br.open, m, st));
    var body := Lines(p.items, br.sep, Inner(m), Display(br.open, m, st));
    DisplayAppends(br.close, Inner(m), Write(NewlineNoIndent(body), m.prev));
  }

  lemma {:induction false} LinesAppend(items: seq<Piece>, sep: string, inner: Margins, st: Page)
    ensures st.out <= Lines(items, sep, inner, st).out
    decreases Sizes(items), 1
  {
    if items != [] {
      var st1 := Write(NewlineNoIndent(st), inner.prev);
      DisplayAppends(items[0], inner, st1);
      if |items| > 1 {
        LinesAppend(items[1..], sep, inner, Write(Display(items[0], inner, st1), sep));
      }
    }
  }

  // ---------------------------------------------------------------------------
  // Where a piece ends
  // ---------------------------------------------------------------------------

  /** A position on the line: a column up to the indent, somewhere past it, or the column just past the page. */
  datatype Spot = At(col: nat) | Past | Full

  /** The position of a column, if it is on the line at all; `next` is the indent of fresh lines. */
  function SpotOf(col: nat, next: nat, width: int): Option<Spot> {
    if col > width + 1 then None
    else if col == width + 1 then Some(Full)
    else if col <= next then Some(At(col))
    else Some(Past)
  }

  /** The column is at this position, with `slack` columns allowed past the page. */
  predicate Stands(spot: Spot, col: nat, next: nat, width: int, slack: nat) {
    match spot
    case At(c) => col == c && c <= next && c <= width
    case Past => next < col <= width + slack
    case Full => col == width + 1
  }

  function AfterText(len: nat, next: nat, width: int, at: Spot): Option<Spot> {
    if at.At? then SpotOf(at.col + len, next, width)
    else if next + len <= width then Some(Past)
    else None
  }

  function AfterGap(len: nat, next: nat, width: int, at: Spot): Option<Spot> {
    match at
    case At(c) => SpotOf(c + len, next, width)
    case Past => Some(Past)
    case Full => if len == 0 then Some(Full) else None
  }

  /** The frame fits on the line it starts on, or on a fresh one. */
  predicate FitsSomewhere(len: nat, next: nat, width: int, at: Spot) {
    (if at.At? then at.col else next) + len <= width
  }

  /** Where a piece ends if all its lines stay within one column past the page; `prev` and `next` are the indents. */
  function Ends(p: Piece, prev: nat, next: nat, width: int, at: Spot): Option<Spot>
    decreases Size(p), 1
  {
    match p
    case Str(s) => AfterText(|s|, next, width, at)
    case Seq(items, _, sep, _) =>
      if items == [] then Some(at)
      else MoreEnds(items[1..], |SepOf(sep)|, prev, next, width, Ends(items[0], prev, next, width, at))
    case Frame(items, br) =>
      if items == [] then
        EmptyIsSmaller(br);
        Ends(Empty(br), prev, next, width, at)
      else if FitsSomewhere(MinLen(p), next, width, at) then AfterText(MinLen(p), next, width, at)
      else if Ends(br.open, prev, next, width, at).None? || !LinesEnd(items, |br.sep|, next, width) then None
      else SpotOf(prev + MinLen(br.close), next, width)
    case _ => Some(at)
  }

  /** The same for the children after the first, from where that ended. */
  function MoreEnds(items: seq<Piece>, gap: nat, prev: nat, next: nat, width: int, at: Option<Spot>): Option<Spot>
    decreases Sizes(items), 1
  {
    if items == [] || at.None? then at
    else
      var start := AfterGap(gap, next, width, at.value);
      if start.None? then None
      else MoreEnds(items[1..], gap, prev, next, width, Ends(items[0], prev, next, width, start.value))
  }

  /** Every line of a long frame, started at `indent`, stays within. */
  predicate LinesEnd(items: seq<Piece>, sep: nat, indent: nat, width: int)
    decreases Sizes(items), 1
  {
    items == []
    || (var next, start := indent + INDENT_LEN, SpotOf(indent, indent + INDENT_LEN, width);
        start.Some?
        && var end := Ends(items[0], indent, next, width, start.value);
           end.Some? && (|items| > 1 ==> AfterGap(sep, next, width, end.value).Some?)
           && LinesEnd(items[1..], sep, indent, width))
  }

  /** No string or sequence is empty, separators take a column at most, and nothing has a raw newline. */
  predicate Solid(p: Piece)
    decreases Size(p)
  {
    match p
    case Str(s) => s != "" && NewlineFree(s)
    case Seq(items, _, sep, _) =>
      items != [] && |SepOf(sep)| <= 1 && NewlineFree(SepOf(sep)) && AllSolid(items)
    case Frame(items, br) => br == BRACKETS && AllSolid(items)
    case _ => false
  }

  predicate AllSolid(items: seq<Piece>)
    decreases Sizes(items)
  {
    items == [] || (Solid(items[0]) && AllSolid(items[1..]))
  }

  // ---------------------------------------------------------------------------
  // It is exact
  // ---------------------------------------------------------------------------

  /** The analysis is right about a page: it gives an end exactly if no line is too long, and the right one. */
  ghost predicate Right(end: Option<Spot>, st: Page, next: nat, width: int) {
    if end.Some? then Good(st, width) && Stands(end.value, st.col, next, width, 0)
    else !LinesWithin(st.out, width + 1)
  }

  predicate Indents(m: Margins) {
    PlainMargins(m) && Indented(m)
  }

  ghost predicate Ready(m: Margins, st: Page, at: Spot, slack: nat) {
    && Indents(m)
    && Good(st, m.width) && Stands(at, st.col, |m.next|, m.width, slack)
  }

  lemma SolidLength(p: Piece)
    requires Solid(p)
    ensures MinLen(p) >= 1 && NoNewlines(p)
    decreases Size(p)
  {
    match p
    case Str(s) =>
    case Seq(items, _, _, _) =>
      MinLenOfSeq(p);
      SolidLength(items[0]);
      AllSolidPlain(items);
    case Frame(items, br) =>
      assert NoneNewlines([Str("{")]) && NoneNewlines([Str("}")]) && MinLens([Str("{")]) == 1;
      AllSolidPlain(items);
      if items != [] {
        MinLenOfFrame(p);
      }
  }

  lemma AllSolidPlain(items: seq<Piece>)
    requires AllSolid(items)
    ensures NoneNewlines(items)
    decreases Sizes(items)
  {
    if items != [] {
      SolidLength(items[0]);
      AllSolidPlain(items[1..]);
    }
  }

  lemma TextWithin(s: string, st: Page, width: int)
    requires s != "" && NewlineFree(s) && Good(st, width)
    ensures if st.col + |s| <= width + 1 then Good(Write(st, s), width) else !LinesWithin(Write(st, s).out, width + 1)
  {
    Snoc(st.out, Text(s), width + 1);
    PlainText(s, st.col, width + 1);
  }

  lemma TextRight(s: string, m: Margins, st: Page, at: Spot)
    requires s != "" && NewlineFree(s) && Ready(m, st, at, 1)
    ensures Right(AfterText(|s|, |m.next|, m.width, at), Display(Str(s), m, st), |m.next|, m.width)
  {
    if |s| > SpaceHere(m, st) && |s| <= SpaceNewline(m) {
      LineGood(st, m.next, m.width);
      TextWithin(s, Newline(m, st), m.width);
    } else {
      TextWithin(s, st, m.width);
    }
  }

  lemma GapRight(gap: Gap, m: Margins, st: Page, at: Spot)
    requires gap.SeqGap? && |gap.sep| <= 1 && NewlineFree(gap.sep) && Ready(m, st, at, 0)
    ensures var start := AfterGap(|gap.sep|, |m.next|, m.width, at);
            if start.Some? then Ready(m, WriteGap(gap, st), start.value, 1)
            else !LinesWithin(WriteGap(gap, st).out, m.width + 1)
  {
    var st1 := Paint(gap.colors, st);
    PaintGood(st, gap.colors, m.width);
    Snoc(st1.out, Text(gap.sep), m.width + 1);
    PlainText(gap.sep, st1.col, m.width + 1);
  }

  // A piece that fits ends where a text of its length would.

  predicate OnPage(at: Spot, next: nat, width: int) {
    at.At? ==> at.col <= next && at.col <= width
  }

  /** Two texts that fit one after the other end where one text of their joint length would. */
  lemma ThenText(a: nat, b: nat, next: nat, width: int, at: Spot)
    requires OnPage(at, next, width) && FitsSomewhere(a + b, next, width, at)
    ensures var mid := AfterText(a, next, width, at);
            && mid.Some? && !mid.value.Full? && OnPage(mid.value, next, width)
            && FitsSomewhere(b, next, width, mid.value)
            && AfterText(b, next, width, mid.value) == AfterText(a + b, next, width, at)
  {
  }

  lemma {:induction false} WholeEnds(p: Piece, prev: nat, next: nat, width: int, at: Spot)
    requires Solid(p) && OnPage(at, next, width) && FitsSomewhere(MinLen(p), next, width, at)
    ensures Ends(p, prev, next, width, at) == AfterText(MinLen(p), next, width, at)
    decreases Size(p), 1
  {
    match p
    case Str(s) =>
    case Seq(items, _, sep, _) =>
      MinLenOfSeq(p);
      ThenText(MinLen(items[0]), Total(items[1..], |SepOf(sep)|), next, width, at);
      WholeEnds(items[0], prev, next, width, at);
      MoreWholeEnd(items[1..], |SepOf(sep)|, prev, next, width, AfterText(MinLen(items[0]), next, width, at).value);
    case Frame(items, br) =>
      if items == [] {
        EmptyIsSmaller(br);
        EmptySolid();
        WholeEnds(Empty(br), prev, next, width, at);
      }
  }

  lemma {:induction false} MoreWholeEnd(items: seq<Piece>, gap: nat, prev: nat, next: nat, width: int, at: Spot)
    requires AllSolid(items) && gap <= 1 && OnPage(at, next, width) && !at.Full?
    requires FitsSomewhere(Total(items, gap), next, width, at)
    ensures MoreEnds(items, gap, prev, next, width, Some(at)) == AfterText(Total(items, gap), next, width, at)
    decreases Sizes(items), 1
  {
    if items != [] {
      var rest := Total(items[1..], gap);
      ThenText(gap, MinLen(items[0]) + rest, next, width, at);
      var start := AfterText(gap, next, width, at).value;
      assert AfterGap(gap, next, width, at) == Some(start);
      ThenText(MinLen(items[0]), rest, next, width, start);
      WholeEnds(items[0], prev, next, width, start);
      MoreWholeEnd(items[1..], gap, prev, next, width, AfterText(MinLen(items[0]), next, width, start).value);
    }
  }

  lemma EmptySolid()
    ensures Solid(Empty(BRACKETS)) && MinLen(Empty(BRACKETS)) == MinLen(Frame([], BRACKETS)) == 2
  {
    var open, close := BRACKETS.open, BRACKETS.close;
    assert [open, close][1..] == [close] && [close][1..] == [];
    assert [Str("{")][1..] == [] && [Str("}")][1..] == [];
    assert Solid(Str("{")) && Solid(Str("}"));
    assert AllSolid([Str("{")]) && AllSolid([Str("}")]);
    assert AllSolid([close]);
    assert MinLens([Str("{")]) == 1 && MinLens([Str("}")]) == 1;
    MinLenOfSeq(Empty(BRACKETS));
    TotalIs([close], 0);
    assert MinLens([close]) == MinLen(close) + MinLens([]);
  }

  /** What is kept whole and fits is on one line. */
  lemma WholeRight(p: Piece, m: Margins, st: Page, at: Spot)
    requires Solid(p) && KeptWhole(p) && Ready(m, st, at, 1)
    requires FitsSomewhere(MinLen(p), |m.next|, m.width, at)
    ensures Right(AfterText(MinLen(p), |m.next|, m.width, at), Display(p, m, st), |m.next|, m.width)
  {
    SolidLength(p);
    if MinLen(p) <= SpaceHere(m, st) {
      FitsHere(p, m, st);
      MinLenIsLength(p, st);
      OneLineGood(p, st, m.width);
    } else {
      NeverSplit(p, m, st);
      assert Newline(m, st).out == st.out + [Text("\n"), Text(m.next)];
      LineGood(st, m.next, m.width);
      MinLenIsLength(p, Newline(m, st));
      OneLineGood(p, Newline(m, st), m.width);
    }
  }

  /**
   * Every line stays within one column past the page exactly if the analysis finds an end, which only looks at
   * lengths and indents; and that is where the piece ends.
   */
  lemma {:induction false} DisplayRight(p: Piece, m: Margins, st: Page, at: Spot)
    requires Solid(p) && Ready(m, st, at, 1)
    ensures Right(Ends(p, |m.prev|, |m.next|, m.width, at), Display(p, m, st), |m.next|, m.width)
    decreases Size(p), 2
  {
    var prev, next := |m.prev|, |m.next|;
    match p
    case Str(s) => TextRight(s, m, st, at);
    case Seq(items, _, _, tight) =>
      SolidLength(p);
      if tight && FitsSomewhere(MinLen(p), next, m.width, at) {
        WholeEnds(p, prev, next, m.width, at);
        WholeRight(p, m, st, at);
      } else {
        assert tight ==> Break(MinLen(p), m, st) == st;
        SequenceRight(p, m, st, at);
      }
    case Frame(items, br) =>
      if items == [] {
        EmptyIsSmaller(br);
        EmptySolid();
        DisplayRight(Empty(br), m, st, at);
      } else if FitsSomewhere(MinLen(p), next, m.width, at) {
        WholeRight(p, m, st, at);
      } else {
        SolidLength(p);
        LongRight(p, m, st, at);
      }
  }

  lemma StaysWrong(a: Page, b: Page, width: int)
    requires a.out <= b.out && !LinesWithin(a.out, width + 1)
    ensures !LinesWithin(b.out, width + 1)
  {
    if LinesWithin(b.out, width + 1) {
      PrefixWithin(a.out, b.out, width + 1);
    }
  }

  lemma ResetRight(colors: Option<string>, st: Page, end: Option<Spot>, next: nat, width: int)
    requires Right(end, st, next, width)
    ensures Right(end, Reset(colors, st), next, width)
  {
    Snoc(st.out, Code(C_E), width + 1);
  }

  lemma {:induction false} SequenceRight(p: Piece, m: Margins, st: Page, at: Spot)
    requires p.Seq? && Solid(p) && Ready(m, st, at, 1)
    ensures Right(Ends(p, |m.prev|, |m.next|, m.width, at), Sequence(p, m, st), |m.next|, m.width)
    decreases Size(p), 1
  {
    var gap, st1 := SeqGap(p.colors, SepOf(p.sep)), Paint(p.colors, st);
    PaintGood(st, p.colors, m.width);
    DisplayRight(p.items[0], m, st1, at);
    var first := Display(p.items[0], m, st1);
    var end := Ends(p.items[0], |m.prev|, |m.next|, m.width, at);
    MoreRight(p.items[1..], gap, m, first, end);
    ResetRight(p.colors, More(p.items[1..], gap, m, first),
               MoreEnds(p.items[1..], |gap.sep|, |m.prev|, |m.next|, m.width, end), |m.next|, m.width);
  }

  lemma {:induction false} MoreRight(items: seq<Piece>, gap: Gap, m: Margins, st: Page, at: Option<Spot>)
    requires AllSolid(items) && gap.SeqGap? && |gap.sep| <= 1 && NewlineFree(gap.sep)
    requires Indents(m) && Right(at, st, |m.next|, m.width)
    ensures Right(MoreEnds(items, |gap.sep|, |m.prev|, |m.next|, m.width, at), More(items, gap, m, st),
                  |m.next|, m.width)
    decreases Sizes(items), 1
  {
    if items != [] {
      var st1 := WriteGap(gap, st);
      if at.None? {
        MoreAppends(items, gap, m, st);
        StaysWrong(st, More(items, gap, m, st), m.width);
      } else {
        GapRight(gap, m, st, at.value);
        var start := AfterGap(|gap.sep|, |m.next|, m.width, at.value);
        if start.None? {
          DisplayAppends(items[0], m, st1);
          MoreAppends(items[1..], gap, m, Display(items[0], m, st1));
          StaysWrong(st1, More(items, gap, m, st), m.width);
        } else {
          DisplayRight(items[0], m, st1, start.value);
          MoreRight(items[1..], gap, m, Display(items[0], m, st1),
                    Ends(items[0], |m.prev|, |m.next|, m.width, start.value));
        }
      }
    }
  }

  /** Starting a line at an indent. */
  lemma IndentRight(st: Page, indent: string, next: nat, width: int)
    requires Good(st, width) && NewlineFree(indent) && width >= -1
    ensures var line, start := Write(NewlineNoIndent(st), indent), SpotOf(|indent|, next, width);
            if start.Some? then Good(line, width) && Stands(start.value, line.col, next, width, 0)
            else !LinesWithin(line.out, width + 1)
  {
    var st1 := NewlineNoIndent(st);
    assert ("\n")[..0] == "";
    Snoc(st.out, Text("\n"), width + 1);
    Snoc(st1.out, Text(indent), width + 1);
    PlainText(indent, 0, width + 1);
  }

  lemma BracketsSolid()
    ensures Solid(BRACKETS.open) && Solid(BRACKETS.close)
    ensures MinLen(BRACKETS.open) == MinLen(BRACKETS.close) == 1
    ensures forall prev, next, width, at :: Ends(BRACKETS.close, prev, next, width, at) == AfterText(1, next, width, at)
  {
    assert [Str("{")][1..] == [] && [Str("}")][1..] == [];
    assert Solid(Str("{")) && Solid(Str("}"));
    assert AllSolid([Str("{")]) && AllSolid([Str("}")]);
    assert MinLens([Str("{")]) == 1 && MinLens([Str("}")]) == 1;
  }

  /** No line is too long so far exactly if all is well. */
  ghost predicate Fine(well: bool, st: Page, width: int) {
    if well then Good(st, width) else !LinesWithin(st.out, width + 1)
  }

  lemma {:induction false} LongRight(p: Piece, m: Margins, st: Page, at: Spot)
    requires p.Frame? && p.items != [] && Solid(p) && Ready(m, st, at, 1)
    requires !FitsSomewhere(MinLen(p), |m.next|, m.width, at)
    ensures Right(Ends(p, |m.prev|, |m.next|, m.width, at), Long(p, m, st), |m.next|, m.width)
    decreases Size(p), 1
  {
    var br, inner := p.bracket, Inner(m);
    BracketsSolid();
    DisplayRight(br.open, m, st, at);
    var open := Display(br.open, m, st);
    var body := Lines(p.items, br.sep, inner, open);
    var opens := Ends(br.open, |m.prev|, |m.next|, m.width, at).Some?;
    LinesRight(p.items, br.sep, inner, open, opens);
    CloseRight(br.close, m, body, opens && LinesEnd(p.items, |br.sep|, |m.next|, m.width));
  }

  lemma CloseRight(close: Piece, m: Margins, body: Page, well: bool)
    requires close == BRACKETS.close && Indents(m) && Fine(well, body, m.width) && m.width >= -1
    ensures var line := Write(NewlineNoIndent(body), m.prev);
            Right(if well then SpotOf(|m.prev| + 1, |m.next|, m.width) else None,
                  Display(close, Inner(m), line), |m.next|, m.width)
    decreases Size(close), 3
  {
    var inner, line := Inner(m), Write(NewlineNoIndent(body), m.prev);
    DisplayAppends(close, inner, line);
    var shown := Display(close, inner, line);
    if well {
      BracketsSolid();
      IndentRight(body, m.prev, |inner.next|, m.width);
      var start := SpotOf(|m.prev|, |inner.next|, m.width);
      if start.Some? {
        DisplayRight(close, inner, line, start.value);
      } else {
        StaysWrong(line, shown, m.width);
      }
    } else {
      StaysWrong(body, shown, m.width);
    }
  }

  lemma {:induction false} LinesRight(items: seq<Piece>, sep: string, inner: Margins, st: Page, well: bool)
    requires AllSolid(items) && |sep| <= 1 && NewlineFree(sep) && inner.width >= -1
    requires Indents(inner) && Fine(well, st, inner.width)
    ensures Fine(well && LinesEnd(items, |sep|, |inner.prev|, inner.width), Lines(items, sep, inner, st), inner.width)
    decreases Sizes(items), 1
  {
    if items != [] {
      var line := Write(NewlineNoIndent(st), inner.prev);
      var child := Display(items[0], inner, line);
      var start := SpotOf(|inner.prev|, |inner.next|, inner.width);
      if well && start.Some? {
        IndentRight(st, inner.prev, |inner.next|, inner.width);
        DisplayRight(items[0], inner, line, start.value);
        LineRight(items, sep, inner, child, Ends(items[0], |inner.prev|, |inner.next|, inner.width, start.value));
      } else {
        LinesAppend(items, sep, inner, st);
        if well {
          IndentRight(st, inner.prev, |inner.next|, inner.width);
          FirstLineAppends(items, sep, inner, st);
          StaysWrong(line, Lines(items, sep, inner, st), inner.width);
        } else {
          StaysWrong(st, Lines(items, sep, inner, st), inner.width);
        }
      }
    }
  }

  lemma FirstLineAppends(items: seq<Piece>, sep: string, inner: Margins, st: Page)
    requires items != []
    ensures Write(NewlineNoIndent(st), inner.prev).out <= Lines(items, sep, inner, st).out
  {
    var line := Write(NewlineNoIndent(st), inner.prev);
    DisplayAppends(items[0], inner, line);
    if |items| > 1 {
      LinesAppend(items[1..], sep, inner, Write(Display(items[0], inner, line), sep));
    }
  }

  /** The lines that follow a line, after the separator. */
  lemma {:induction false} LineRight(items: seq<Piece>, sep: string, inner: Margins, child: Page, end: Option<Spot>)
    requires AllSolid(items) && items != [] && |sep| <= 1 && NewlineFree(sep) && inner.width >= -1
    requires Indents(inner) && Right(end, child, |inner.next|, inner.width)
    ensures var rest := if |items| == 1 then child else Lines(items[1..], sep, inner, Write(child, sep));
            Fine(end.Some? && (|items| > 1 ==> AfterGap(|sep|, |inner.next|, inner.width, end.value).Some?)
                 && LinesEnd(items[1..], |sep|, |inner.prev|, inner.width), rest, inner.width)
    decreases Sizes(items), 0
  {
    if |items| == 1 {
      assert LinesEnd(items[1..], |sep|, |inner.prev|, inner.width);
    } else if end.Some? {
      GapRight(SeqGap(None, sep), inner, child, end.value);
      LinesRight(items[1..], sep, inner, Write(child, sep),
                 AfterGap(|sep|, |inner.next|, inner.width, end.value).Some?);
    } else {
      StaysWrong(child, Write(child, sep), inner.width);
      LinesRight(items[1..], sep, inner, Write(child, sep), false);
    }
  }

  // ---------------------------------------------------------------------------
  // What that comes to for each string
  // ---------------------------------------------------------------------------

  /** Every string, written from the indent of its line, would end at most one column past the page. */
  predicate Roomy(p: Piece, n: int, width: int)
    decreases Size(p)
  {
    match p
    case Str(s) => n - INDENT_LEN + |s| <= width + 1
    case Seq(items, _, _, _) => AllRoomy(items, n, width)
    case Frame(items, br) =>
      Roomy(br.open, n, width) && Roomy(br.close, n, width) && AllRoomy(items, n + INDENT_LEN, width)
    case _ => true
  }

  predicate AllRoomy(items: seq<Piece>, n: int, width: int)
    decreases Sizes(items)
  {
    items == [] || (Roomy(items[0], n, width) && AllRoomy(items[1..], n, width))
  }

  /** A frame on one line costs more columns than its children are indented by. */
  lemma {:induction false} WholeRoomy(p: Piece, n: int, width: int)
    requires Solid(p) && n - INDENT_LEN + MinLen(p) <= width + 1
    ensures Roomy(p, n, width)
    decreases Size(p)
  {
    match p
    case Str(s) =>
    case Seq(items, _, sep, _) =>
      MinLenOfSeq(p);
      WholeRoomy(items[0], n, width);
      AllWholeRoomy(items[1..], |SepOf(sep)|, n, width);
    case Frame(items, br) =>
      BracketsSolid();
      WholeRoomy(br.open, n, width);
      WholeRoomy(br.close, n, width);
      if items != [] {
        MinLenOfFrame(p);
        WholeRoomy(items[0], n + INDENT_LEN, width);
        AllWholeRoomy(items[1..], |br.sep| + 1, n + INDENT_LEN, width);
      }
  }

  lemma {:induction false} AllWholeRoomy(items: seq<Piece>, len: nat, n: int, width: int)
    requires AllSolid(items) && n - INDENT_LEN + Total(items, len) <= width + 1
    ensures AllRoomy(items, n, width)
    decreases Sizes(items)
  {
    if items != [] {
      WholeRoomy(items[0], n, width);
      AllWholeRoomy(items[1..], len, n, width);
    }
  }

  predicate NotBefore(at: Spot, prev: nat) {
    at.At? ==> at.col >= prev
  }

  lemma EmptyRoomy(br: Bracket, n: int, width: int)
    requires Roomy(Empty(br), n, width)
    ensures Roomy(Frame([], br), n, width)
  {
    assert [br.open, br.close][1..] == [br.close];
    assert AllRoomy([br.open, br.close], n, width) && AllRoomy([br.close], n, width);
  }

  /** If lines stay within, every string has the room of its line. */
  lemma {:induction false} EndsRoomy(p: Piece, prev: nat, width: int, at: Spot)
    requires Solid(p) && NotBefore(at, prev)
    requires Ends(p, prev, prev + INDENT_LEN, width, at).Some?
    ensures Roomy(p, prev + INDENT_LEN, width)
    ensures NotBefore(Ends(p, prev, prev + INDENT_LEN, width, at).value, prev)
    decreases Size(p), 1
  {
    match p
    case Str(s) =>
    case Seq(items, _, sep, _) =>
      MoreStarts(items[1..], |SepOf(sep)|, prev, width, Ends(items[0], prev, prev + INDENT_LEN, width, at));
      EndsRoomy(items[0], prev, width, at);
      MoreRoomy(items[1..], |SepOf(sep)|, prev, width, Ends(items[0], prev, prev + INDENT_LEN, width, at));
    case Frame(items, br) =>
      if items == [] {
        EmptyIsSmaller(br);
        EmptySolid();
        EndsRoomy(Empty(br), prev, width, at);
        EmptyRoomy(br, prev + INDENT_LEN, width);
      } else {
        FrameRoomy(p, prev, width, at);
      }
  }

  lemma {:induction false} FrameRoomy(p: Piece, prev: nat, width: int, at: Spot)
    requires p.Frame? && p.items != [] && Solid(p) && NotBefore(at, prev)
    requires Ends(p, prev, prev + INDENT_LEN, width, at).Some?
    ensures Roomy(p, prev + INDENT_LEN, width)
    ensures NotBefore(Ends(p, prev, prev + INDENT_LEN, width, at).value, prev)
    decreases Size(p), 0
  {
    if FitsSomewhere(MinLen(p), prev + INDENT_LEN, width, at) {
      WholeRoomy(p, prev + INDENT_LEN, width);
    } else {
      BracketsSolid();
      EndsRoomy(p.bracket.open, prev, width, at);
      LinesRoomy(p.items, |p.bracket.sep|, prev + INDENT_LEN, width);
      WholeRoomy(p.bracket.close, prev + INDENT_LEN, width);
    }
  }

  lemma {:induction false} MoreRoomy(items: seq<Piece>, gap: nat, prev: nat, width: int, at: Option<Spot>)
    requires AllSolid(items) && at.Some? && NotBefore(at.value, prev)
    requires MoreEnds(items, gap, prev, prev + INDENT_LEN, width, at).Some?
    ensures AllRoomy(items, prev + INDENT_LEN, width)
    ensures NotBefore(MoreEnds(items, gap, prev, prev + INDENT_LEN, width, at).value, prev)
    decreases Sizes(items), 1
  {
    if items != [] {
      var start := AfterGap(gap, prev + INDENT_LEN, width, at.value).value;
      var end := Ends(items[0], prev, prev + INDENT_LEN, width, start);
      MoreStarts(items[1..], gap, prev, width, end);
      EndsRoomy(items[0], prev, width, start);
      MoreRoomy(items[1..], gap, prev, width, end);
    }
  }

  lemma MoreStarts(items: seq<Piece>, gap: nat, prev: nat, width: int, at: Option<Spot>)
    requires MoreEnds(items, gap, prev, prev + INDENT_LEN, width, at).Some?
    ensures at.Some?
  {
  }

  lemma {:induction false} LinesRoomy(items: seq<Piece>, sep: nat, indent: nat, width: int)
    requires AllSolid(items) && LinesEnd(items, sep, indent, width)
    ensures AllRoomy(items, indent + INDENT_LEN, width)
    decreases Sizes(items), 1
  {
    if items != [] {
      EndsRoomy(items[0], indent, width, SpotOf(indent, indent + INDENT_LEN, width).value);
      LinesRoomy(items[1..], sep, indent, width);
    }
  }
}
