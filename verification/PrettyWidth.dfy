/** The page width for a string printed on its own: exactly when it keeps to the page. */
module PrettyWidth {
  import opened Prelude
  import opened Pieces
  import opened Translate
  import opened Clean
  import opened Layout
  import opened LayoutFacts
  import opened LayoutWidth
  import opened Pretty

  // ---------------------------------------------------------------------------
  // A string on its own
  // ---------------------------------------------------------------------------

  /** The columns a character takes beyond its own when it is quoted. */
  function Cost(c: char, rest: string): nat {
    if c in {'"', '\\', '\n'} then 1
    else if !IsControl(c) then 0
    else if c == '\U{7F}' || (rest != "" && IsDigit(rest[0])) then 3
    else if c as int >= 10 then 2
    else 1
  }

  function Costs(s: string): nat {
    if s == "" then 0 else Cost(s[0], s[1..]) + Costs(s[1..])
  }

  lemma {:induction false} QuoteLength(s: string)
    ensures |Quote(s)| == |s| + 2 + Costs(s)
  {
    if s != "" {
      QuoteLength(s[1..]);
    }
  }

  /** One string written after what is on the page already. */
  lemma TextStep(s: string, st: Page)
    requires s != "" && NewlineFree(s) && Tracks(st)
    ensures var d := Display(Str(s), START, st);
            && Tracks(d) && d.col == (if |s| > SpaceHere(START, st) && |s| <= 75 then 3 else st.col) + |s|
            && (LinesWithin(d.out, 78) <==> LinesWithin(st.out, 78) && d.col <= 78)
  {
    var line := NewlineNoIndent(st);
    var st1 := Break(|s|, START, st);
    assert ("\n")[..0] == "";
    Snoc(st.out, Text("\n"), 78);
    Snoc(line.out, Text(INDENT), 78);
    PlainText(INDENT, 0, 78);
    Snoc(st1.out, Text(s), 78);
    PlainText(s, st1.col, 78);
  }

  lemma CodeStep(code: string, st: Page)
    requires Tracks(st)
    ensures Tracks(WriteCode(st, code))
    ensures LinesWithin(WriteCode(st, code).out, 78) <==> LinesWithin(st.out, 78)
  {
    Snoc(st.out, Code(code), 78);
  }

  lemma EmptyStep(colors: string, st: Page)
    requires Tracks(st)
    ensures var gap := WriteGap(SeqGap(Some(colors), ""), st);
            Tracks(gap) && gap.col == st.col && (LinesWithin(gap.out, 78) <==> LinesWithin(st.out, 78))
  {
    CodeStep(colors, st);
    Snoc(WriteCode(st, colors).out, Text(""), 78);
  }

  /** A sequence with one string. */
  lemma ColoredStep(text: string, colors: string, st: Page)
    ensures Display(Colored(text, colors), START, st)
         == WriteCode(Display(Str(text), START, WriteCode(st, colors)), C_E)
  {
    var p, gap := Colored(text, colors), SeqGap(Some(colors), SEP);
    var first := Display(Str(text), START, WriteCode(st, colors));
    assert p.items[0] == Str(text) && p.items[1..] == [];
    assert More([], gap, START, first) == first;
    assert Sequence(p, START, st) == WriteCode(first, C_E);
  }

  lemma ShortStringWithin(s: string)
    ensures LinesWithin(Display(Colored(Quote(s), C_G), START, EMPTY).out, 78) <==> |Quote(s)| <= 78
  {
    EscapePlain(s);
    ColoredStep(Quote(s), C_G, EMPTY);
    var st1 := WriteCode(EMPTY, C_G);
    CodeStep(C_G, EMPTY);
    TextStep(Quote(s), st1);
    CodeStep(C_E, Display(Str(Quote(s)), START, st1));
  }

  /** The piece of a long string. */
  function Halves(a: string, b: string): Piece {
    Seq([Str(a), Colored("...", C_DI), Str(b)], Some(C_G), Some(""), true)
  }

  /** What is written for the two halves. */
  lemma LongStringOutput(a: string, b: string)
    ensures var gap := SeqGap(Some(C_G), "");
            var st1 := Display(Str(a), START, WriteCode(EMPTY, C_G));
            var st2 := Display(Colored("...", C_DI), START, WriteGap(gap, st1));
            Display(Halves(a, b), START, EMPTY) == WriteCode(Display(Str(b), START, WriteGap(gap, st2)), C_E)
  {
    var items := [Str(a), Colored("...", C_DI), Str(b)];
    var p := Halves(a, b);
    assert items[1..] == [Colored("...", C_DI), Str(b)];
    assert items[1..][1..] == [Str(b)] && [Str(b)][1..] == [];
    MinLenOfSeq(p);
    assert Total([Str(b)], 0) == |b| + Total([], 0);
    assert MinLens([Str("...")]) == 3 by {
      assert [Str("...")][1..] == [];
    }
    assert MinLen(p) == |a| + 3 + |b|;
    assert Break(MinLen(p), START, EMPTY) == EMPTY;
    var gap := SeqGap(Some(C_G), "");
    var st1 := Display(Str(a), START, WriteCode(EMPTY, C_G));
    var st2 := Display(Colored("...", C_DI), START, WriteGap(gap, st1));
    var st3 := Display(Str(b), START, WriteGap(gap, st2));
    assert More([Str(b)], gap, START, st2) == More([], gap, START, st3) == st3;
    assert More(items[1..], gap, START, st1) == st3;
    assert Sequence(p, START, EMPTY) == WriteCode(st3, C_E);
  }

  lemma LongStringWithin(a: string, b: string)
    requires |a| >= 32 && |b| >= 32 && NewlineFree(a) && NewlineFree(b)
    ensures LinesWithin(Display(Halves(a, b), START, EMPTY).out, 78) <==> |a| <= 78 && |b| <= 75
  {
    var gap := SeqGap(Some(C_G), "");
    LongStringOutput(a, b);
    CodeStep(C_G, EMPTY);
    TextStep(a, WriteCode(EMPTY, C_G));
    var st1 := Display(Str(a), START, WriteCode(EMPTY, C_G));
    EmptyStep(C_G, st1);
    var st2 := WriteGap(gap, st1);
    ColoredStep("...", C_DI, st2);
    CodeStep(C_DI, st2);
    TextStep("...", WriteCode(st2, C_DI));
    CodeStep(C_E, Display(Str("..."), START, WriteCode(st2, C_DI)));
    var st3 := Display(Colored("...", C_DI), START, st2);
    EmptyStep(C_G, st3);
    TextStep(b, WriteGap(gap, st3));
    CodeStep(C_E, Display(Str(b), START, WriteGap(gap, st3)));
  }

  lemma ShownString(h: Heap, s: string)
    requires Closed(h)
    ensures Shown(h, String(s)) == Display(StringPiece(s), START, EMPTY)
  {
    var items := StringPiece(s).items;
    assert AllCleaned([Str("...")], map[]) == [Str("...")];
    assert AllCleaned(items, map[]) == items;
    assert Walk(h, String(s), NOTHING) == (StringPiece(s), NOTHING);
  }

  lemma ShortPieceWithin(s: string)
    requires |s| <= MAX_STR_LEN
    ensures LinesWithin(Display(StringPiece(s), START, EMPTY).out, 78) <==> |s| + Costs(s) <= 76
  {
    QuoteLength(s);
    ShortStringWithin(s);
    assert StringPiece(s) == Colored(Quote(s), C_G);
  }

  lemma LongPieceWithin(s: string)
    requires |s| > MAX_STR_LEN
    ensures LinesWithin(Display(StringPiece(s), START, EMPTY).out, 78)
       <==> Costs(s[..STR_HALF]) <= 46 && Costs(s[|s| - STR_HALF..]) <= 43
  {
    var a, b := s[..STR_HALF], s[|s| - STR_HALF..];
    QuoteLength(a);
    QuoteLength(b);
    EscapePlain(a);
    EscapePlain(b);
    LongStringWithin(Quote(a), Quote(b));
    assert StringPiece(s) == Halves(Quote(a), Quote(b));
  }

  /** Escapes leave room for the string: for all of it, or for the first and the last 30 characters of a long one. */
  predicate FewEscapes(s: string) {
    if |s| <= MAX_STR_LEN then |s| + Costs(s) <= 76
    else Costs(s[..STR_HALF]) <= 46 && Costs(s[|s| - STR_HALF..]) <= 43
  }

  lemma PageWithin(s: string, page: Page)
    requires page == Display(StringPiece(s), START, EMPTY)
    ensures LinesWithin(page.out, 78) <==> FewEscapes(s)
  {
    if |s| <= MAX_STR_LEN {
      ShortPieceWithin(s);
    } else {
      LongPieceWithin(s);
    }
  }

  /**
   * A string printed on its own stays within the page exactly if it has few enough characters to escape. (Up to 60
   * characters are written unbroken; between the halves of a longer string there can be a line break.)
   */
  lemma StringWithinIff(h: Heap, s: string)
    requires Closed(h)
    ensures LinesWithin(Shown(h, String(s)).out, 78) <==> FewEscapes(s)
  {
    ShownString(h, s);
    PageWithin(s, Shown(h, String(s)));
  }
}
