/** The page width for whole values, in terms of the value itself. */
module ValueWidth {
  import opened Prelude
  import opened Pieces
  import opened Namers
  import opened Translate
  import opened TranslateFacts
  import opened Clean
  import opened CleanFacts
  import opened Layout
  import opened LayoutWidth
  import opened LayoutExact
  import opened Pretty

  // ---------------------------------------------------------------------------
  // What a value has to be like
  // ---------------------------------------------------------------------------

  /** What every text is asked: to be there, to have no raw newline, and to fit at indent `n` if there is a limit. */
  predicate Room(s: string, n: nat, limit: Option<nat>) {
    s != "" && NewlineFree(s) && HasRoom(|s|, n, limit)
  }

  predicate HasRoom(len: nat, n: nat, limit: Option<nat>) {
    limit.Some? ==> n + len <= limit.value
  }

  predicate StringRoom(s: string, n: nat, limit: Option<nat>) {
    if |s| <= MAX_STR_LEN then HasRoom(|Quote(s)|, n, limit)
    else HasRoom(|Quote(s[..STR_HALF])|, n, limit) && HasRoom(|Quote(s[|s| - STR_HALF..])|, n, limit)
  }

  /**
   * Along every way down through different tables, every text has room at its depth, names of up to `widest`
   * columns included, and there is no `false`. Tables already open on the way are only referred to.
   */
  predicate Legible(h: Heap, v: Value, n: nat, open: set<nat>, limit: Option<nat>, widest: nat)
    requires Closed(h) && Exists(h, v)
    decreases h.Keys - open, 0
  {
    match v
    case String(s) => StringRoom(s, n, limit)
    case Number(_, text) => Room(text, n, limit)
    case Function(_) => HasRoom(widest, n, limit)
    case Bool(b) => b && HasRoom(widest, n, limit)
    case Other(_, _, shown) => Room(shown, n, limit) && HasRoom(widest, n, limit)
    case Table(a) =>
      HasRoom(widest, n, limit)
      && (a in open || forall row | row in Rows(h[a]) :: RowLegible(h, row, n + INDENT_LEN, a, open, limit, widest))
  }

  /** The same for a line of table `a`. */
  predicate RowLegible(h: Heap, row: Row, n: nat, a: nat, open: set<nat>, limit: Option<nat>, widest: nat)
    requires Closed(h) && a in h && a !in open && row in Rows(h[a])
    decreases h.Keys - open - {a}, 1
  {
    RowExists(h, row)
    && Legible(h, row.val, n, open + {a}, limit, widest)
    && if row.Meta? then Room("<metatable>", n, limit)
       else if IdentFriendly(row.key) then Room(row.key.s, n, limit)
       else Legible(h, row.key, n, open + {a}, limit, widest)
  }

  // ---------------------------------------------------------------------------
  // What the tree to be displayed is then like
  // ---------------------------------------------------------------------------

  predicate Tidy(p: Piece, n: nat, limit: Option<nat>) {
    match p
    case Str(s) => Room(s, n, limit)
    case Seq(items, _, sep, _) =>
      items != [] && |SepOf(sep)| <= 1 && NewlineFree(SepOf(sep)) && AllTidy(items, n, limit)
    case Frame(items, br) => br == BRACKETS && HasRoom(1, n, limit) && AllTidy(items, n + INDENT_LEN, limit)
    case _ => false
  }

  predicate AllTidy(items: seq<Piece>, n: nat, limit: Option<nat>) {
    items == [] || (Tidy(items[0], n, limit) && AllTidy(items[1..], n, limit))
  }

  /** Every name is one the namer gives, of `widest` columns at most if there is a limit. */
  ghost predicate NamesUpTo(names: Names, limit: Option<nat>, widest: nat) {
    forall v | v in names :: exists k: nat :: names[v] == NthName(k) && NameUpTo(k, limit, widest)
  }

  predicate NameUpTo(k: nat, limit: Option<nat>, widest: nat) {
    limit.Some? ==> |NthText(k)| <= widest
  }

  lemma TidyIn(items: seq<Piece>, n: nat, limit: Option<nat>)
    requires forall p | p in items :: Tidy(p, n, limit)
    ensures AllTidy(items, n, limit)
  {
  }

  lemma ColoredTidy(text: string, colors: string, n: nat, limit: Option<nat>)
    requires Room(text, n, limit)
    ensures Tidy(Colored(text, colors), n, limit)
  {
    TidyIn([Str(text)], n, limit);
  }

  lemma CleanedColored(text: string, colors: string, names: Names)
    ensures Cleaned(Colored(text, colors), names) == Colored(text, colors)
  {
    assert AllCleaned([Str(text)], names) == [Str(text)];
  }

  lemma StringTidy(s: string, n: nat, limit: Option<nat>, names: Names)
    requires StringRoom(s, n, limit)
    ensures Tidy(Cleaned(StringPiece(s), names), n, limit) && HasRoom(1, n, limit)
  {
    if |s| <= MAX_STR_LEN {
      EscapePlain(s);
      CleanedColored(Quote(s), C_G, names);
      ColoredTidy(Quote(s), C_G, n, limit);
    } else {
      HalvesTidy(s[..STR_HALF], s[|s| - STR_HALF..], n, limit, names);
    }
  }

  lemma HalvesTidy(a: string, b: string, n: nat, limit: Option<nat>, names: Names)
    requires HasRoom(|Quote(a)|, n, limit) && HasRoom(|Quote(b)|, n, limit) && |a| == STR_HALF
    ensures var items := [Str(Quote(a)), Colored("...", C_DI), Str(Quote(b))];
            AllCleaned(items, names) == items && AllTidy(items, n, limit) && HasRoom(1, n, limit)
  {
    var items := [Str(Quote(a)), Colored("...", C_DI), Str(Quote(b))];
    EscapePlain(a);
    EscapePlain(b);
    EscapeLength(a);
    CleanedColored("...", C_DI, names);
    ColoredTidy("...", C_DI, n, limit);
    assert AllCleaned(items, names) == items;
    TidyIn(items, n, limit);
  }

  lemma {:induction false} EscapeLength(s: string)
    ensures |EscapeAll(s)| >= |s|
  {
    if s != "" {
      EscapeLength(s[1..]);
    }
  }

  lemma NameTidy(k: nat, n: nat, limit: Option<nat>, widest: nat)
    requires NameUpTo(k, limit, widest) && HasRoom(widest, n, limit)
    ensures Tidy(NthName(k), n, limit)
  {
    NamesPlain(k % NAME_COUNT);
    DecimalPlain(k / NAME_COUNT + 1);
    ColoredTidy(NthText(k), C_UN + NAME_COLORS[k % COLOR_COUNT], n, limit);
  }

  lemma TypeNameRoom(v: Value, n: nat, limit: Option<nat>)
    requires HasRoom(8, n, limit)
    ensures Room(TypeName(v), n, limit)
  {
    var s := TypeName(v);
    assert s == "boolean" || s == "number" || s == "string" || s == "table" || s == "function" || s == "userdata"
        || s == "thread" || s == "cdata";
  }

  lemma HeaderTidy(id: Value, k: nat, n: nat, limit: Option<nat>, widest: nat)
    requires widest >= 8 && HasRoom(widest, n, limit) && NameUpTo(k, limit, widest)
    ensures Tidy(Header(id, NthName(k)), n, limit)
  {
    NameTidy(k, n, limit, widest);
    TypeNameRoom(id, n, limit);
    var a, b := [Str("<"), Str(TypeName(id))], [Str(" "), NthName(k), Str(">")];
    TidyIn(a + b, n, limit);
    assert a + b == Header(id, NthName(k)).items;
  }

  lemma AnonymousTidy(id: Value, n: nat, limit: Option<nat>)
    requires HasRoom(8, n, limit)
    ensures Tidy(Anonymous(id), n, limit)
  {
    TypeNameRoom(id, n, limit);
    TidyIn(Anonymous(id).items, n, limit);
  }

  lemma ThreeTidy(a: Piece, b: Piece, c: Piece, n: nat, limit: Option<nat>)
    requires Tidy(a, n, limit) && Tidy(b, n, limit) && Tidy(c, n, limit)
    ensures Tidy(Bare([a, b, c]), n, limit)
  {
    TidyIn([a, b, c], n, limit);
  }

  /** What replaces an id node, around its definition if it has one. */
  lemma NodeTidy(p: Piece, n: nat, limit: Option<nat>, widest: nat, names: Names)
    requires widest >= 8 && HasRoom(widest, n, limit) && NamesUpTo(names, limit, widest)
    requires (p.Ref? || p.Def?) && p.id != Bool(false)
    requires p.Def? ==> Tidy(Cleaned(p.def, names), n, limit)
    ensures Tidy(Cleaned(p, names), n, limit)
  {
    if p.id in names {
      var k: nat :| names[p.id] == NthName(k) && NameUpTo(k, limit, widest);
      HeaderTidy(p.id, k, n, limit, widest);
      if p.Def? {
        ColoredTidy("is", C_DI, n, limit);
        ThreeTidy(Header(p.id, NthName(k)), IS, Cleaned(p.def, names), n, limit);
      }
    } else {
      AnonymousTidy(p.id, n, limit);
    }
  }

  lemma {:induction false} WalkTidy(h: Heap, v: Value, st: Seen, n: nat, open: set<nat>, limit: Option<nat>,
                                    widest: nat, names: Names)
    requires Closed(h) && Exists(h, v) && Legible(h, v, n, open, limit, widest)
    requires forall a | a in open :: Table(a) in st.occur
    requires widest >= 8 && NamesUpTo(names, limit, widest)
    ensures Tidy(Cleaned(Walk(h, v, st).0, names), n, limit) && HasRoom(1, n, limit)
    decreases |Unmet(h, st)|, 0
  {
    var p := Walk(h, v, st).0;
    match v
    case String(s) => StringTidy(s, n, limit, names);
    case Number(_, text) =>
      CleanedColored(text, C_M + C_BR, names);
      ColoredTidy(text, C_M + C_BR, n, limit);
    case Table(a) =>
      if v !in st.occur {
        TouchShrinks(h, v, st);
        RowsTidy(h, Rows(h[a]), Touch(v, st), n + INDENT_LEN, a, open, limit, widest, names);
      }
      NodeTidy(p, n, limit, widest, names);
    case Function(_) => NodeTidy(p, n, limit, widest, names);
    case Bool(_) => NodeTidy(p, n, limit, widest, names);
    case Other(_, _, _) => NodeTidy(p, n, limit, widest, names);
  }

  lemma {:induction false} RowsTidy(h: Heap, rows: seq<Row>, st: Seen, n: nat, a: nat, open: set<nat>,
                                    limit: Option<nat>, widest: nat, names: Names)
    requires Closed(h) && a in h && a !in open
    requires forall row | row in rows :: row in Rows(h[a]) && RowLegible(h, row, n, a, open, limit, widest)
    requires forall b | b in open + {a} :: Table(b) in st.occur
    requires widest >= 8 && NamesUpTo(names, limit, widest)
    ensures AllTidy(AllCleaned(WalkRows(h, rows, st).0, names), n, limit)
    decreases |Unmet(h, st)|, 3 + |rows|
  {
    if rows != [] {
      var (first, st1) := WalkRow(h, rows[0], st);
      RowTidy(h, rows[0], st, n, a, open, limit, widest, names);
      UnmetShrinks(h, st, st1);
      RowsTidy(h, rows[1..], st1, n, a, open, limit, widest, names);
      var rest := WalkRows(h, rows[1..], st1).0;
      assert ([first] + rest)[1..] == rest;
    }
  }

  lemma {:induction false} RowTidy(h: Heap, row: Row, st: Seen, n: nat, a: nat, open: set<nat>, limit: Option<nat>,
                                   widest: nat, names: Names)
    requires Closed(h) && a in h && a !in open && row in Rows(h[a]) && RowLegible(h, row, n, a, open, limit, widest)
    requires forall b | b in open + {a} :: Table(b) in st.occur
    requires widest >= 8 && NamesUpTo(names, limit, widest)
    ensures Tidy(Cleaned(WalkRow(h, row, st).0, names), n, limit)
    decreases |Unmet(h, st)|, 2
  {
    var (key, st1) := WalkKey(h, row, st);
    if row.Meta? {
      CleanedColored("<metatable>", C_IT + C_Y, names);
      ColoredTidy("<metatable>", C_IT + C_Y, n, limit);
    } else if IdentFriendly(row.key) {
      CleanedColored(row.key.s, C_M, names);
      ColoredTidy(row.key.s, C_M, n, limit);
    } else {
      WalkTidy(h, row.key, st, n, open + {a}, limit, widest, names);
    }
    UnmetShrinks(h, st, st1);
    WalkTidy(h, row.val, st1, n, open + {a}, limit, widest, names);
    CleanedColored("=", C_DI, names);
    ColoredTidy("=", C_DI, n, limit);
    var val := Walk(h, row.val, st1).0;
    ThreeTidy(Cleaned(key, names), EQ, Cleaned(val, names), n, limit);
    assert AllCleaned([key, EQ, val], names) == [Cleaned(key, names), EQ, Cleaned(val, names)];
  }

  lemma {:induction false} TidySolid(p: Piece, n: nat, limit: Option<nat>)
    requires Tidy(p, n, limit)
    ensures Solid(p)
  {
    match p
    case Str(_) =>
    case Seq(items, _, _, _) => AllTidySolid(items, n, limit);
    case Frame(items, _) => AllTidySolid(items, n + INDENT_LEN, limit);
  }

  lemma {:induction false} AllTidySolid(items: seq<Piece>, n: nat, limit: Option<nat>)
    requires AllTidy(items, n, limit)
    ensures AllSolid(items)
  {
    if items != [] {
      TidySolid(items[0], n, limit);
      AllTidySolid(items[1..], n, limit);
    }
  }

  lemma {:induction false} TidyFits(p: Piece, n: nat, width: nat)
    requires Tidy(p, n, Some(width))
    ensures Fitting(p, n, width)
  {
    match p
    case Str(_) =>
    case Seq(items, _, _, _) => AllTidyFit(items, n, width);
    case Frame(items, br) =>
      AllTidyFit(items, n + INDENT_LEN, width);
      if items != [] {
        FittingRoom(items[0], n + INDENT_LEN, width);
      }
      BracketFits(n, width);
      BracketFits(CloseIndent(items, n), width);
  }

  lemma {:induction false} AllTidyFit(items: seq<Piece>, n: nat, width: nat)
    requires AllTidy(items, n, Some(width))
    ensures AllFitting(items, n, width)
  {
    if items != [] {
      TidyFits(items[0], n, width);
      AllTidyFit(items[1..], n, width);
    }
  }

  lemma BracketFits(n: nat, width: nat)
    requires n + 1 <= width
    ensures Fitting(BRACKETS.open, n, width) && Fitting(BRACKETS.close, n, width)
  {
    assert [Str("{")][1..] == [] && [Str("}")][1..] == [];
    assert AllFitting([Str("{")], n, width) && AllFitting([Str("}")], n, width);
  }

  // ---------------------------------------------------------------------------
  // How many names there can be
  // ---------------------------------------------------------------------------

  /** The value itself and everything that is a key, a value or a metatable somewhere in the heap. */
  function Objects(h: Heap, root: Value): set<Value> {
    {root}
    + (set a, row | a in h && row in Rows(h[a]) :: row.val)
    + (set a, row | a in h && row in Rows(h[a]) && row.Entry? :: row.key)
  }

  lemma ReachedAreObjects(h: Heap, root: Value, t: Value)
    requires Reachable(h, root, t)
    ensures t in Objects(h, root)
  {
    var path: seq<Value> :| IsPath(h, path) && path[0] == root && path[|path| - 1] == t;
    if |path| > 1 {
      var from := path[|path| - 2];
      assert Edge(h, from, t);
      EdgeIff(h, from, t);
      var row :| row in Rows(h[from.addr]) && InRow(row, t);
    }
  }

  lemma MetAreObjects(h: Heap, root: Value)
    requires Closed(h) && Exists(h, root)
    ensures Walk(h, root, NOTHING).1.occur <= Objects(h, root)
  {
    if Tracked(root) {
      WalkSpans(h, root);
      forall t | Reachable(h, root, t)
        ensures t in Objects(h, root)
      {
        ReachedAreObjects(h, root, t);
      }
    }
  }

  /** No more names are given than there are objects. */
  lemma NamesCounted(h: Heap, root: Value)
    requires Closed(h) && Exists(h, root)
    ensures forall v | v in Walk(h, root, NOTHING).1.named ::
              exists k: nat :: Walk(h, root, NOTHING).1.named[v] == NthName(k) && k < |Objects(h, root)|
  {
    var st := Walk(h, root, NOTHING).1;
    NamesInSequence(h, root);
    MetAreObjects(h, root);
    NamedIffRepeated(h, root);
    Cardinality(st.named.Keys, Objects(h, root));
    NamesBelow(st, |Objects(h, root)|);
  }

  lemma NamesBelow(st: Seen, count: nat)
    requires WellNamed(st) && st.calls <= count
    ensures forall v | v in st.named :: exists k: nat :: st.named[v] == NthName(k) && k < count
  {
    forall v | v in st.named
      ensures exists k: nat :: st.named[v] == NthName(k) && k < count
    {
      var k: nat :| k < st.calls && st.named[v] == NthName(k);
    }
  }

  // ---------------------------------------------------------------------------
  // The bound for values
  // ---------------------------------------------------------------------------

  lemma LegibleTidy(h: Heap, val: Value, limit: Option<nat>, widest: nat)
    requires Closed(h) && Exists(h, val) && widest >= 8 && Legible(h, val, INDENT_LEN, {}, limit, widest)
    requires forall k: nat | k < |Objects(h, val)| :: NameUpTo(k, limit, widest)
    ensures Tidy(Prepared(h, val), INDENT_LEN, limit)
  {
    var names := Walk(h, val, NOTHING).1.named;
    NamesCounted(h, val);
    assert NamesUpTo(names, limit, widest) by {
      forall v | v in names
        ensures exists k: nat :: names[v] == NthName(k) && NameUpTo(k, limit, widest)
      {
        var k: nat :| names[v] == NthName(k) && k < |Objects(h, val)|;
        assert NameUpTo(k, limit, widest);
      }
    }
    WalkTidy(h, val, NOTHING, INDENT_LEN, {}, limit, widest, names);
  }

  /**
   * A condition on the value alone: if every text has room at the depth of every way that leads to it, names
   * included, and there is no `false`, then no printed line is longer than 79 columns.
   */
  lemma LegibleWithin(h: Heap, val: Value, widest: nat)
    requires Closed(h) && Exists(h, val) && widest >= 8 && Legible(h, val, INDENT_LEN, {}, Some(78), widest)
    requires forall k: nat | k < |Objects(h, val)| :: NameUpTo(k, Some(78), widest)
    ensures LinesWithin(Shown(h, val).out, 79)
  {
    LegibleTidy(h, val, Some(78), widest);
    TidyFits(Prepared(h, val), INDENT_LEN, 78);
    ShownFaithfully(h, val);
  }

  /** Without `false`, and with a text from `tostring` that is not empty and has no newline wherever it is used. */
  predicate Printable(h: Heap, val: Value)
    requires Closed(h) && Exists(h, val)
  {
    Legible(h, val, INDENT_LEN, {}, None, 8)
  }

  /** A tree displayed on an empty page. */
  lemma StartRight(p: Piece)
    requires Solid(p)
    ensures LinesWithin(Display(p, START, EMPTY).out, 79) <==> Ends(p, 0, INDENT_LEN, 78, At(0)).Some?
    ensures LinesWithin(Display(p, START, EMPTY).out, 79) ==> Roomy(p, INDENT_LEN, 78)
  {
    DisplayRight(p, START, EMPTY, At(0));
    if Ends(p, 0, INDENT_LEN, 78, At(0)).Some? {
      EndsRoomy(p, 0, 78, At(0));
    }
  }

  /**
   * For every printable value, tables included: the lines stay within 79 columns exactly if the analysis of the
   * tree's lengths and indents finds an end; and then every string of the tree has the room of its line.
   */
  lemma ShownWithinIff(h: Heap, val: Value)
    requires Closed(h) && Exists(h, val) && Printable(h, val)
    ensures LinesWithin(Shown(h, val).out, 79) <==> Ends(Prepared(h, val), 0, INDENT_LEN, 78, At(0)).Some?
    ensures LinesWithin(Shown(h, val).out, 79) ==> Roomy(Prepared(h, val), INDENT_LEN, 78)
  {
    LegibleTidy(h, val, None, 8);
    TidySolid(Prepared(h, val), INDENT_LEN, None);
    StartRight(Prepared(h, val));
  }

  // ---------------------------------------------------------------------------
  // A value that does not stay within
  // ---------------------------------------------------------------------------

  /** A string inside `k` tables, one in the other, each under the key 1. */
  function Nest(k: nat, s: string): Heap {
    map i: nat | i < k :: Object(None, [(Number(1, "1"), Below(i, k, s))])
  }

  function Below(i: nat, k: nat, s: string): Value {
    if i + 1 < k then Table(i + 1) else String(s)
  }

  lemma NestRows(k: nat, s: string, i: nat)
    requires i < k
    ensures Closed(Nest(k, s)) && Rows(Nest(k, s)[i]) == [Entry(Number(1, "1"), Below(i, k, s))]
  {
    forall j | j in Nest(k, s)
      ensures Rows(Nest(k, s)[j]) == [Entry(Number(1, "1"), Below(j, k, s))]
    {
      var es := [(Number(1, "1"), Below(j, k, s))];
      assert es[1..] == [] && Entries(es) == [Entry(es[0].0, es[0].1)];
    }
  }

  lemma {:induction false} NestLegible(k: nat, s: string, i: nat, n: nat, open: set<nat>)
    requires i < k && Closed(Nest(k, s))
    ensures Legible(Nest(k, s), Table(i), n, open, None, 8)
    decreases k - i
  {
    var h := Nest(k, s);
    NestRows(k, s, i);
    if i + 1 < k && i !in open {
      NestLegible(k, s, i + 1, n + INDENT_LEN, open + {i});
    }
  }

  /** The table line of a table with one pair, wherever the walk meets it first. */
  lemma NestWalk(k: nat, s: string, i: nat, st: Seen)
    requires i < k && Closed(Nest(k, s)) && Table(i) !in st.occur
    ensures var h, v := Nest(k, s), Below(i, k, s);
            Walk(h, Table(i), st).0
            == Def(Table(i), Frame([Bare([NumberPiece("1"), EQ, Walk(h, v, Touch(Table(i), st)).0])], BRACKETS))
  {
    var h, row, st1 := Nest(k, s), Entry(Number(1, "1"), Below(i, k, s)), Touch(Table(i), st);
    NestRows(k, s, i);
    assert [row][1..] == [];
    assert WalkKey(h, row, st1) == (NumberPiece("1"), st1);
    var (first, st2) := WalkRow(h, row, st1);
    assert WalkRows(h, [], st2) == ([], st2);
    assert WalkRows(h, [row], st1).0 == [first];
  }

  lemma {:induction false} NestNeeds(k: nat, s: string, i: nat, st: Seen, names: Names, n: int)
    requires i < k && |s| <= MAX_STR_LEN && Closed(Nest(k, s))
    requires forall j | i <= j < k :: Table(j) !in st.occur
    requires Roomy(Cleaned(Walk(Nest(k, s), Table(i), st).0, names), n, 78)
    ensures n + INDENT_LEN * (k - i - 1) + |Quote(s)| <= 79
    decreases k - i
  {
    var h, v, st1 := Nest(k, s), Below(i, k, s), Touch(Table(i), st);
    NestWalk(k, s, i, st);
    var inner := Walk(h, v, st1).0;
    var line := [NumberPiece("1"), EQ, inner];
    NestedRoomy(Table(i), line, names, n);
    if i + 1 < k {
      NestNeeds(k, s, i + 1, st1, names, n + INDENT_LEN);
    } else {
      CleanedColored(Quote(s), C_G, names);
      RoomyAt([Str(Quote(s))], 0, n + INDENT_LEN);
    }
  }

  /** The room of a table with one line reaches the value on it. */
  lemma NestedRoomy(id: Value, line: seq<Piece>, names: Names, n: int)
    requires |line| == 3 && id != Bool(false)
    requires Roomy(Cleaned(Def(id, Frame([Bare(line)], BRACKETS)), names), n, 78)
    ensures Roomy(Cleaned(line[2], names), n + INDENT_LEN, 78)
  {
    var cleaned := Cleaned(Def(id, Frame([Bare(line)], BRACKETS)), names);
    var frame := Cleaned(Frame([Bare(line)], BRACKETS), names);
    if id in names {
      RoomyAt(cleaned.items, 2, n);
    }
    assert Roomy(frame, n, 78);
    RoomyAt(frame.items, 0, n + INDENT_LEN);
    RoomyAt(AllCleaned(line, names), 2, n + INDENT_LEN);
  }

  lemma {:induction false} RoomyAt(items: seq<Piece>, i: nat, n: int)
    requires i < |items| && AllRoomy(items, n, 78)
    ensures Roomy(items[i], n, 78)
  {
    if i > 0 {
      RoomyAt(items[1..], i - 1, n);
    }
  }

  /**
   * Nesting alone makes lines too long: a string of plain letters inside enough tables does, and a string of 60
   * letters inside six of them.
   */
  lemma NestOverflows(k: nat, s: string)
    requires 1 <= k && |s| <= MAX_STR_LEN && INDENT_LEN * k + |s| + 2 > 79
    ensures Closed(Nest(k, s)) && !LinesWithin(Shown(Nest(k, s), Table(0)).out, 79)
  {
    var h := Nest(k, s);
    NestRows(k, s, 0);
    NestLegible(k, s, 0, INDENT_LEN, {});
    ShownWithinIff(h, Table(0));
    EscapeLength(s);
    if Roomy(Prepared(h, Table(0)), INDENT_LEN, 78) {
      NestNeeds(k, s, 0, NOTHING, Walk(h, Table(0), NOTHING).1.named, INDENT_LEN);
    }
  }

  lemma SixTablesOverflow()
    ensures var h := Nest(6, seq(60, _ => 'x'));
            Closed(h) && !LinesWithin(Shown(h, Table(0)).out, 79)
  {
    NestOverflows(6, seq(60, _ => 'x'));
  }
}
