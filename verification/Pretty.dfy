/** The three stages together: from a value to the text that is printed. */
module Pretty {
  import opened Prelude
  import opened Pieces
  import opened Namers
  import opened Translate
  import opened TranslateFacts
  import opened Clean
  import opened CleanFacts
  import opened CleanText
  import opened Layout
  import opened LayoutBreaks
  import opened LayoutFacts
  import opened LayoutWidth
  import Printer

  const START := Margins("", INDENT, 78)
  const EMPTY := Page([], 0)

  /** What the printer writes for a value. */
  function Shown(h: Heap, val: Value): Page
    requires Closed(h) && Exists(h, val)
  {
    Display(Prepared(h, val), START, EMPTY)
  }

  /** The module's one exported function, with the text it prints as its result. */
  method Show(h: Heap, val: Option<Value>) returns (out: seq<Chunk>)
    requires Closed(h) && (val.Some? ==> Exists(h, val.value))
    ensures val.None? ==> out == [Text("nil")]
    ensures val.Some? ==> out == [Code(C_E)] + Shown(h, val.value).out + [Code(C_E)]
  {
    if val.None? {
      return [Text("nil")];
    }
    var ctx := new Printer.Context();
    var piece := ctx.TranslateValue(h, val.value);
    piece := Printer.CleanPiece(piece, ctx.named);
    ctx.Display(piece);
    out := [Code(C_E)] + ctx.result + [Code(C_E)];
  }

  // ---------------------------------------------------------------------------
  // No string in the tree has a raw newline
  // ---------------------------------------------------------------------------

  predicate PlainValue(v: Value) {
    (v.Number? ==> NewlineFree(v.text)) && (v.Other? ==> NewlineFree(v.shown))
  }

  predicate PlainRow(row: Row) {
    PlainValue(row.val) && (row.Entry? ==> PlainValue(row.key))
  }

  /** `tostring` never answers a text with a newline. Strings themselves may contain any character. */
  predicate PlainHeap(h: Heap) {
    forall a | a in h :: forall row | row in Rows(h[a]) :: PlainRow(row)
  }

  /** No string in the piece, or in a definition inside it, contains a raw newline. */
  predicate PlainTree(p: Piece) {
    match p
    case Str(s) => NewlineFree(s)
    case Seq(items, _, sep, _) => NewlineFree(SepOf(sep)) && PlainTrees(items)
    case Frame(items, br) => br == BRACKETS && PlainTrees(items)
    case Ref(_) => true
    case Def(_, d) => PlainTree(d)
  }

  predicate PlainTrees(items: seq<Piece>) {
    items == [] || (PlainTree(items[0]) && PlainTrees(items[1..]))
  }

  lemma {:induction false} EscapePlain(s: string)
    ensures NewlineFree(EscapeAll(s))
  {
    if s != "" {
      OneEscapePlain(s[0], s[1..]);
      EscapePlain(s[1..]);
    }
  }

  lemma OneEscapePlain(c: char, rest: string)
    ensures NewlineFree(Escape(c, rest))
  {
  }

  lemma PlainIn(items: seq<Piece>)
    requires forall p | p in items :: PlainTree(p)
    ensures PlainTrees(items)
  {
  }

  lemma LeafPlain(text: string, colors: string, s: string)
    ensures NewlineFree(text) ==> PlainTree(Colored(text, colors))
    ensures PlainTree(StringPiece(s))
  {
    if NewlineFree(text) {
      PlainIn([Str(text)]);
    }
    if |s| <= MAX_STR_LEN {
      EscapePlain(s);
      PlainIn([Str(Quote(s))]);
    } else {
      EscapePlain(s[..STR_HALF]);
      EscapePlain(s[|s| - STR_HALF..]);
      PlainIn([Str("...")]);
      PlainIn(StringPiece(s).items);
    }
  }

  lemma {:induction false} WalkPlain(h: Heap, v: Value, st: Seen)
    requires Closed(h) && Exists(h, v) && PlainHeap(h) && PlainValue(v)
    ensures PlainTree(Walk(h, v, st).0)
    decreases |Unmet(h, st)|, 0
  {
    match v
    case String(s) => LeafPlain("", "", s);
    case Number(_, text) => LeafPlain(text, C_M + C_BR, "");
    case Table(a) =>
      if v !in st.occur {
        TouchShrinks(h, v, st);
        RowsPlain(h, Rows(h[a]), Touch(v, st));
      }
    case Function(_) =>
    case Bool(_) =>
    case Other(_, _, _) =>
  }

  lemma {:induction false} RowsPlain(h: Heap, rows: seq<Row>, st: Seen)
    requires Closed(h) && PlainHeap(h)
    requires forall row | row in rows :: RowExists(h, row) && PlainRow(row)
    ensures PlainTrees(WalkRows(h, rows, st).0)
    decreases |Unmet(h, st)|, 3 + |rows|
  {
    if rows != [] {
      var (first, st1) := WalkRow(h, rows[0], st);
      RowPlain(h, rows[0], st);
      UnmetShrinks(h, st, st1);
      RowsPlain(h, rows[1..], st1);
      var rest := WalkRows(h, rows[1..], st1).0;
      assert ([first] + rest)[1..] == rest;
    }
  }

  lemma {:induction false} RowPlain(h: Heap, row: Row, st: Seen)
    requires Closed(h) && PlainHeap(h) && RowExists(h, row) && PlainRow(row)
    ensures PlainTree(WalkRow(h, row, st).0)
    decreases |Unmet(h, st)|, 2
  {
    var (key, st1) := WalkKey(h, row, st);
    LeafPlain("=", C_DI, "");
    if row.Meta? {
      LeafPlain("<metatable>", C_IT + C_Y, "");
    } else if IdentFriendly(row.key) {
      assert NewlineFree(row.key.s);
      LeafPlain(row.key.s, C_M, "");
    } else {
      WalkPlain(h, row.key, st);
    }
    UnmetShrinks(h, st, st1);
    WalkPlain(h, row.val, st1);
    PlainIn([key, EQ, Walk(h, row.val, st1).0]);
  }

  lemma NoNewlinesIn(items: seq<Piece>)
    requires forall p | p in items :: NoNewlines(p)
    ensures NoneNewlines(items)
  {
  }

  lemma {:induction false} CleanPlain(p: Piece, names: Names)
    requires PlainTree(p) && forall v | v in names :: NoNewlines(names[v])
    ensures NoNewlines(Cleaned(p, names))
  {
    match p
    case Str(_) =>
    case Seq(items, _, _, _) => AllCleanPlain(items, names);
    case Frame(items, br) =>
      AllCleanPlain(items, names);
      NoNewlinesIn([Str("{")]);
      NoNewlinesIn([Str("}")]);
    case Ref(id) => NodesPlain(id, names);
    case Def(id, d) =>
      CleanPlain(d, names);
      NodesPlain(id, names);
      if id in names {
        NoNewlinesIn([Str("is")]);
        NoNewlinesIn([Header(id, names[id]), IS, Cleaned(d, names)]);
      }
  }

  lemma {:induction false} AllCleanPlain(items: seq<Piece>, names: Names)
    requires PlainTrees(items) && forall v | v in names :: NoNewlines(names[v])
    ensures NoneNewlines(AllCleaned(items, names))
  {
    if items != [] {
      CleanPlain(items[0], names);
      AllCleanPlain(items[1..], names);
    }
  }

  lemma NodesPlain(id: Value, names: Names)
    requires forall v | v in names :: NoNewlines(names[v])
    ensures id in names ==> NoNewlines(Header(id, names[id]))
    ensures NoNewlines(Anonymous(id))
    ensures NoNewlines(Bare([]))
  {
    NoNewlinesIn([Str("<"), Str(TypeName(id)), Str(">")]);
    if id in names {
      NoNewlinesIn([Str("<"), Str(TypeName(id)), Str(" "), names[id], Str(">")]);
    }
  }

  lemma {:induction false} DecimalPlain(n: nat)
    ensures NewlineFree(Decimal(n))
  {
    if n >= 10 {
      DecimalPlain(n / 10);
    }
  }

  lemma NamePlain(k: nat)
    ensures NoNewlines(NthName(k))
  {
    NamesPlain(k % NAME_COUNT);
    DecimalPlain(k / NAME_COUNT + 1);
    assert NewlineFree(NthText(k));
    NoNewlinesIn([Str(NthText(k))]);
  }

  lemma PreparedPlain(h: Heap, val: Value)
    requires Closed(h) && Exists(h, val) && PlainHeap(h) && PlainValue(val)
    ensures NoNewlines(Prepared(h, val))
  {
    var (p, st) := Walk(h, val, NOTHING);
    WalkPlain(h, val, NOTHING);
    NamedIffRepeated(h, val);
    forall v | v in st.named
      ensures NoNewlines(st.named[v])
    {
      var k: nat :| k < st.calls && st.named[v] == NthName(k);
      NamePlain(k);
    }
    CleanPlain(p, st.named);
  }

  /**
   * For every value: the text printed is what the translated tree says with names for its ids, up to whitespace; as
   * long as `tostring` answers without newlines, the column the printer keeps is the true one to the end, no line is
   * blank and every line starts with an indent; and if every string of the tree fits on a fresh line at its depth, no
   * line is longer than 79 columns.
   */
  lemma ShownFaithfully(h: Heap, val: Value)
    requires Closed(h) && Exists(h, val)
    ensures Ink(Shown(h, val).out) == Ink(Said(Walk(h, val, NOTHING).0, Walk(h, val, NOTHING).1.named))
    ensures PlainHeap(h) && PlainValue(val) ==> Tracks(Shown(h, val)) && Laid(Shown(h, val).out)
    ensures Fitting(Prepared(h, val), INDENT_LEN, 78) ==> LinesWithin(Shown(h, val).out, 79)
  {
    OnlyWhitespace(Prepared(h, val), START, EMPTY);
    CleanSays(Walk(h, val, NOTHING).0, Walk(h, val, NOTHING).1.named);
    if Fitting(Prepared(h, val), INDENT_LEN, 78) {
      DisplayWithin(Prepared(h, val), START, EMPTY);
    }
    if PlainHeap(h) && PlainValue(val) {
      PreparedPlain(h, val);
      DisplayTracks(Prepared(h, val), START, EMPTY);
      DisplayLaid(Prepared(h, val), START, EMPTY);
    }
  }

  // ---------------------------------------------------------------------------
  // Where the printer falls short
  // ---------------------------------------------------------------------------

  lemma {:induction false} InkGrows(p: Piece, st: Page)
    ensures |Ink(OneLine(p, st).out)| >= |Ink(st.out)|
    decreases Size(p), 1
  {
    match p
    case Str(s) => InkSnoc(st.out, Text(s));
    case Seq(items, colors, sep, _) =>
      if items != [] {
        var st1 := Paint(colors, st);
        PaintGrows(st, colors);
        InkGrows(items[0], st1);
        var joined := Joined(items[1..], SeqGap(colors, SepOf(sep)), OneLine(items[0], st1));
        JoinedGrows(items[1..], SeqGap(colors, SepOf(sep)), OneLine(items[0], st1));
        PaintGrows(joined, colors);
      }
    case Frame(items, br) =>
      InkGrows(br.open, st);
      FrameGrows(items, br, st);
    case Ref(_) =>
    case Def(_, _) =>
  }

  lemma {:induction false} FrameGrows(items: seq<Piece>, br: Bracket, st: Page)
    ensures |Ink(OneLine(Frame(items, br), st).out)| >= |Ink(OneLine(br.open, st).out)|
    decreases Size(Frame(items, br)), 0
  {
    var open := OneLine(br.open, st);
    InkSnoc(open.out, Text(" "));
    InkSnoc(open.out, Text(""));
    if items == [] {
      InkGrows(br.close, Write(open, ""));
    } else {
      InkGrows(items[0], Write(open, " "));
      var first := OneLine(items[0], Write(open, " "));
      JoinedGrows(items[1..], FrameGap(br.sep), first);
      var rest := Joined(items[1..], FrameGap(br.sep), first);
      InkSnoc(rest.out, Text(" "));
      InkGrows(br.close, Write(rest, " "));
    }
  }

  lemma PaintGrows(st: Page, colors: Option<string>)
    ensures |Ink(Paint(colors, st).out)| == |Ink(st.out)| + if colors.Some? then 1 else 0
    ensures |Ink(Reset(colors, st).out)| == |Ink(st.out)| + if colors.Some? then 1 else 0
  {
    InkSnoc(st.out, Code(C_E));
    if colors.Some? {
      InkSnoc(st.out, Code(colors.value));
    }
  }

  lemma {:induction false} JoinedGrows(items: seq<Piece>, gap: Gap, st: Page)
    ensures |Ink(Joined(items, gap, st).out)| >= |Ink(st.out)|
    decreases Sizes(items), 0
  {
    if items != [] {
      match gap {
        case SeqGap(colors, sep) =>
          PaintGrows(st, colors);
          InkSnoc(Paint(colors, st).out, Text(sep));
        case FrameGap(sep) =>
          InkSnoc(st.out, Text(sep));
          InkSnoc(Write(st, sep).out, Text(" "));
      }
      InkGrows(items[0], WriteGap(gap, st));
      JoinedGrows(items[1..], gap, OneLine(items[0], WriteGap(gap, st)));
    }
  }

  lemma PaintedShows(p: Piece, st: Page)
    requires p.Seq? && p.items != [] && p.colors.Some?
    ensures |Ink(OneLine(p, st).out)| > |Ink(st.out)|
  {
    var st1, gap := Paint(p.colors, st), SeqGap(p.colors, SepOf(p.sep));
    PaintGrows(st, p.colors);
    InkGrows(p.items[0], st1);
    JoinedGrows(p.items[1..], gap, OneLine(p.items[0], st1));
    PaintGrows(Joined(p.items[1..], gap, OneLine(p.items[0], st1)), p.colors);
  }

  lemma FrameShows(items: seq<Piece>, st: Page)
    ensures |Ink(OneLine(Frame(items, BRACKETS), st).out)| > |Ink(st.out)|
  {
    var br := BRACKETS;
    PaintedShows(br.open, st);
    FrameGrows(items, br, st);
  }

  /**
   * Wherever it occurs, a value says something unless it is `false`, and `false` never does.
   * (A value whose `tostring` is blank is set aside.)
   */
  lemma VanishesIffFalse(h: Heap, v: Value, st: Seen, names: Names)
    requires Closed(h) && Exists(h, v)
    requires v.Other? ==> !Blank(v.shown)
    ensures Ink(Said(Walk(h, v, st).0, names)) == [] <==> v == Bool(false)
  {
    if v != Bool(false) {
      Shows(h, v, st, names);
      CleanSays(Walk(h, v, st).0, names);
      OneLineFlat(Cleaned(Walk(h, v, st).0, names), EMPTY);
    }
  }

  lemma Shows(h: Heap, v: Value, st: Seen, names: Names)
    requires Closed(h) && Exists(h, v) && v != Bool(false)
    requires v.Other? ==> !Blank(v.shown)
    ensures |Ink(OneLine(Cleaned(Walk(h, v, st).0, names), EMPTY).out)| > 0
  {
    var p := Walk(h, v, st).0;
    if p.Ref? || p.Def? {
      assert v.Bool? ==> ToString(v)[0] in ToString(v);
      NodeShows(p, names, EMPTY);
    } else {
      PaintedShows(Cleaned(p, names), EMPTY);
    }
  }

  lemma NodeShows(p: Piece, names: Names, page: Page)
    requires p.Ref? || (p.Def? && (p.def.Str? || (p.def.Frame? && p.def.bracket == BRACKETS)))
    requires p.Def? && p.def.Str? ==> !Blank(p.def.text)
    requires p.id != Bool(false)
    ensures |Ink(OneLine(Cleaned(p, names), page).out)| > |Ink(page.out)|
  {
    var q := Cleaned(p, names);
    if p.Ref? {
      PaintedShows(q, page);
    } else if p.id in names {
      PaintedShows(q.items[0], page);
      JoinedGrows(q.items[1..], SeqGap(None, SEP), OneLine(q.items[0], page));
    } else if p.def.Frame? {
      FrameShows(AllCleaned(p.def.items, names), page);
    } else {
      InkSnoc(page.out, Text(p.def.text));
    }
  }
}
