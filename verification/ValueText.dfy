/** What the kinds of values say, spelt out. */
module ValueText {
  import opened Prelude
  import opened Pieces
  import opened Namers
  import opened Translate
  import opened Quoting
  import opened Rebuild
  import opened Clean
  import opened CleanText
  import opened Layout
  import opened LayoutFacts
  import opened Pretty

  /** The string that a quoted text stands for. */
  function Literal(t: string): Option<string> {
    if |t| >= 2 && t[0] == '"' && t[|t| - 1] == '"' then Some(Read(t[1..|t| - 1])) else None
  }

  lemma QuoteReads(s: string)
    ensures Literal(Quote(s)) == Some(s)
  {
    assert Quote(s)[1..|Quote(s)| - 1] == EscapeAll(s);
    ReadsBack(s);
  }

  const RESET := Code("\U{1B}[0m")
  const GREEN := Code("\U{1B}[32m")

  lemma SaidColored(text: string, colors: string, names: Names)
    ensures Said(Colored(text, colors), names) == [Code(colors), Text(text), RESET]
  {
    assert SaidAll([Str(text)], [Code(colors), Text(" ")], names) == Said(Str(text), names);
  }

  lemma SaidThree(a: Piece, b: Piece, c: Piece, between: seq<Chunk>, names: Names)
    ensures SaidAll([a, b, c], between, names)
         == Said(a, names) + between + (Said(b, names) + between + Said(c, names))
  {
    assert [a, b, c][1..] == [b, c] && [b, c][1..] == [c];
    assert SaidAll([c], between, names) == Said(c, names);
    assert SaidAll([b, c], between, names) == Said(b, names) + between + SaidAll([c], between, names);
  }

  lemma HalvesSay(a: string, b: string, names: Names)
    ensures Said(Seq([Str(a), Colored("...", C_DI), Str(b)], Some(C_G), Some(""), true), names)
         == [GREEN, Text(a), GREEN, Text(""), Code("\U{1B}[2m"), Text("..."), RESET, GREEN, Text(""), Text(b), RESET]
  {
    SaidColored("...", C_DI, names);
    SaidThree(Str(a), Colored("...", C_DI), Str(b), [GREEN, Text("")], names);
  }

  /** A short string is a green literal for it. */
  lemma ShortStringSays(s: string, names: Names)
    requires |s| <= 60
    ensures exists q :: Said(StringPiece(s), names) == [GREEN, Text(q), RESET] && Literal(q) == Some(s)
  {
    QuoteReads(s);
    SaidColored(Quote(s), C_G, names);
    assert Said(StringPiece(s), names) == [GREEN, Text(Quote(s)), RESET];
  }

  /** Of a string of more than 60 characters, there are literals for the first and the last 30. */
  lemma LongStringSays(s: string, names: Names)
    requires |s| > 60
    ensures exists a, b ::
              Said(StringPiece(s), names)
              == [GREEN, Text(a), GREEN, Text(""), Code("\U{1B}[2m"), Text("..."), RESET,
                  GREEN, Text(""), Text(b), RESET]
              && Literal(a) == Some(s[..30]) && Literal(b) == Some(s[|s| - 30..])
  {
    QuoteReads(s[..30]);
    QuoteReads(s[|s| - 30..]);
    HalvesSay(Quote(s[..30]), Quote(s[|s| - 30..]), names);
  }

  /** Numbers, `true`, and other objects met for the first time are the texts `tostring` gives. */
  lemma ScalarSays(h: Heap, v: Value, names: Names)
    requires Closed(h) && (v.Number? || v == Bool(true) || v.Other?) && v !in names
    ensures Said(Walk(h, v, NOTHING).0, names)
         == match v
            case Number(_, text) => [Code("\U{1B}[35m\U{1B}[1m"), Text(text), RESET]
            case Other(_, _, shown) => [Text(shown)]
            case _ => [Text("true")]
  {
    if v.Number? {
      assert C_M + C_BR == "\U{1B}[35m\U{1B}[1m";
      SaidColored(v.text, C_M + C_BR, names);
    } else {
      assert v !in NOTHING.occur;
      assert Walk(h, v, NOTHING).0 == Def(v, Str(ToString(v)));
      assert Said(Str(ToString(v)), names) == [Text(ToString(v))];
    }
  }

  /** The types an object can be labelled with. */
  lemma LabelNames(v: Value, name: seq<Chunk>)
    ensures Label(v, name)[4] == TypeLabel(v)[4]
    ensures TypeLabel(v)[4]
         == Text(match v
                 case Bool(_) => "boolean"
                 case Number(_, _) => "number"
                 case String(_) => "string"
                 case Table(_) => "table"
                 case Function(_) => "function"
                 case Other(kind, _, _) =>
                   if kind.Userdata? then "userdata" else if kind.Thread? then "thread" else "cdata")
  {
  }

  predicate Word(s: string) {
    s != "" && !IsDigit(s[0])
    && forall c | c in s :: c == '_' || 'a' <= c <= 'z' || 'A' <= c <= 'Z' || '0' <= c <= '9'
  }

  /** A key is written without quotes exactly if it is a word and not one of Lua's keywords. */
  lemma PlainKeyIff(s: string)
    ensures IdentFriendly(String(s))
       <==> Word(s)
            && s != "and" && s != "break" && s != "do" && s != "else" && s != "elseif" && s != "end" && s != "false"
            && s != "for" && s != "function" && s != "goto" && s != "if" && s != "in" && s != "local" && s != "nil"
            && s != "not" && s != "or" && s != "repeat" && s != "return" && s != "then" && s != "true" && s != "until"
            && s != "while"
  {
    assert Word(s) ==> forall i | 0 <= i < |s| :: s[i] in s;
    if IdentFriendly(String(s)) {
      forall c | c in s
        ensures c == '_' || IsAlpha(c) || IsDigit(c)
      {
        var i :| 0 <= i < |s| && s[i] == c;
      }
    }
  }

  /** And then it is in magenta as it stands; any other key is written like a value. */
  lemma KeySays(s: string, names: Names)
    ensures Said(KeySide(String(s)), names)
         == if IdentFriendly(String(s)) then [Code("\U{1B}[35m"), Text(s), RESET] else Said(StringPiece(s), names)
  {
    SaidColored(s, C_M, names);
  }

  // ---------------------------------------------------------------------------
  // A whole value
  // ---------------------------------------------------------------------------

  /** A table that is its own metatable and its own first value. */
  const SELF := map[0 := Object(Some(Table(0)), [(Number(1, "1"), Table(0))])]

  const CHERRY := [Code("\U{1B}[4m\U{1B}[31m"), Text("Cherry"), RESET]

  const ITALIC := Code("\U{1B}[3m")

  /** `<table Cherry>` */
  const TABLE_CHERRY :=
    [ITALIC, Text("<"), ITALIC, Text(""), Text("table"), ITALIC, Text(""), Text(" "), ITALIC, Text("")]
    + CHERRY + [ITALIC, Text(""), Text(">"), RESET]

  const EQUALS := [Text(" "), Code("\U{1B}[2m"), Text("="), RESET, Text(" ")]

  lemma SelfWalk()
    ensures Closed(SELF)
    ensures Walk(SELF, Table(0), NOTHING)
         == (Def(Table(0), Frame([Bare([METATABLE, EQ, Ref(Table(0))]), Bare([NumberPiece("1"), EQ, Ref(Table(0))])],
                                 BRACKETS)),
             Seen({Table(0)}, map[Table(0) := NthName(0)], 1))
  {
    var t, es := Table(0), [(Number(1, "1"), Table(0))];
    var meta, entry := Meta(t), Entry(Number(1, "1"), t);
    assert es[1..] == [] && Entries(es) == [entry];
    assert Rows(SELF[0]) == [meta, entry];
    var rows := [meta, entry];
    assert rows[1..] == [entry] && [entry][1..] == [];
    var st0 := Touch(t, NOTHING);
    var st1 := Touch(t, st0);
    assert WalkRow(SELF, meta, st0) == (Bare([METATABLE, EQ, Ref(t)]), st1);
    assert WalkKey(SELF, entry, st1) == (NumberPiece("1"), st1);
    assert WalkRow(SELF, entry, st1) == (Bare([NumberPiece("1"), EQ, Ref(t)]), st1);
    var a, b := Bare([METATABLE, EQ, Ref(t)]), Bare([NumberPiece("1"), EQ, Ref(t)]);
    RowsStep(SELF, [entry], st1, b, st1, []);
    RowsStep(SELF, rows, st0, a, st1, [b]);
    assert [a] + [b] == [a, b] && [b] + [] == [b];
    assert WalkRows(SELF, rows, st0) == ([a, b], st1);
    assert st0.occur == {t} && st1.named == map[t := NthName(0)] && st1.calls == 1;
  }

  lemma RowsStep(h: Heap, rows: seq<Row>, st: Seen, first: Piece, next: Seen, rest: seq<Piece>)
    requires Closed(h) && forall row | row in rows :: RowExists(h, row)
    requires rows != [] && WalkRow(h, rows[0], st) == (first, next) && WalkRows(h, rows[1..], next).0 == rest
    ensures WalkRows(h, rows, st) == ([first] + rest, WalkRows(h, rows[1..], next).1)
  {
  }

  lemma LineSays(key: Piece, val: Piece, names: Names)
    ensures Said(Bare([key, EQ, val]), names) == Said(key, names) + EQUALS + Said(val, names)
  {
    SaidThree(key, EQ, val, [Text(" ")], names);
    SaidColored("=", C_DI, names);
  }

  lemma CherrySays()
    ensures Flat(NthName(0)) == CHERRY && Label(Table(0), CHERRY) == TABLE_CHERRY
  {
    assert C_UN + C_R == "\U{1B}[4m\U{1B}[31m";
    NameAt(0, 0);
    assert NthName(0) == Colored("Cherry", C_UN + C_R);
    assert FlatAll([Str("Cherry")], [Code(C_UN + C_R), Text(" ")]) == Flat(Str("Cherry"));
  }

  lemma BracketsSay()
    ensures Flat(BRACKETS.open) == [Code("\U{1B}[1m"), Text("{"), RESET]
    ensures Flat(BRACKETS.close) == [Code("\U{1B}[1m"), Text("}"), RESET]
  {
    assert FlatAll([Str("{")], [Code(C_BR), Text(" ")]) == Flat(Str("{"));
    assert FlatAll([Str("}")], [Code(C_BR), Text(" ")]) == Flat(Str("}"));
  }

  const IS_SAID := [Text(" "), Code("\U{1B}[2m"), Text("is"), RESET, Text(" ")]

  const OPEN := [Code("\U{1B}[1m"), Text("{"), RESET]

  const CLOSE := [Code("\U{1B}[1m"), Text("}"), RESET]

  const METATABLE_SAID := [Code("\U{1B}[3m\U{1B}[33m"), Text("<metatable>"), RESET]

  const ONE := [Code("\U{1B}[35m\U{1B}[1m"), Text("1"), RESET]

  lemma SelfLines(names: Names)
    requires names == map[Table(0) := NthName(0)]
    ensures Said(Ref(Table(0)), names) == TABLE_CHERRY
    ensures Said(Bare([METATABLE, EQ, Ref(Table(0))]), names) == METATABLE_SAID + EQUALS + TABLE_CHERRY
    ensures Said(Bare([NumberPiece("1"), EQ, Ref(Table(0))]), names) == ONE + EQUALS + TABLE_CHERRY
  {
    CherrySays();
    assert C_M + C_BR == "\U{1B}[35m\U{1B}[1m" && C_IT + C_Y == "\U{1B}[3m\U{1B}[33m";
    SaidColored("<metatable>", C_IT + C_Y, names);
    SaidColored("1", C_M + C_BR, names);
    LineSays(METATABLE, Ref(Table(0)), names);
    LineSays(NumberPiece("1"), Ref(Table(0)), names);
  }

  lemma FrameOfTwo(a: Piece, b: Piece, names: Names)
    ensures Said(Frame([a, b], BRACKETS), names)
         == OPEN + [Text(" ")] + (Said(a, names) + [Text(","), Text(" ")] + Said(b, names)) + [Text(" ")] + CLOSE
  {
    BracketsSay();
    assert [a, b][1..] == [b];
    assert SaidAll([b], [Text(","), Text(" ")], names) == Said(b, names);
  }

  const SELF_SAID :=
    TABLE_CHERRY + IS_SAID
    + (OPEN + [Text(" ")]
       + (METATABLE_SAID + EQUALS + TABLE_CHERRY + [Text(","), Text(" ")] + (ONE + EQUALS + TABLE_CHERRY))
       + [Text(" ")] + CLOSE)

  lemma SelfSays(names: Names)
    requires names == map[Table(0) := NthName(0)]
    ensures Said(Walk(SELF, Table(0), NOTHING).0, names) == SELF_SAID
  {
    var a, b := Bare([METATABLE, EQ, Ref(Table(0))]), Bare([NumberPiece("1"), EQ, Ref(Table(0))]);
    SelfWalk();
    SelfLines(names);
    FrameOfTwo(a, b, names);
    CherrySays();
    assert Said(Def(Table(0), Frame([a, b], BRACKETS)), names)
        == Label(Table(0), Flat(NthName(0))) + IS_SAID + Said(Frame([a, b], BRACKETS), names);
  }

  /** `<table Cherry> is { <metatable> = <table Cherry>, 1 = <table Cherry> }`, with its colours. */
  lemma SelfShown()
    ensures Closed(SELF) && Ink(Shown(SELF, Table(0)).out) == Ink(SELF_SAID)
  {
    SelfWalk();
    ShownFaithfully(SELF, Table(0));
    SelfSays(map[Table(0) := NthName(0)]);
  }
}
