/** The piece tree determines the graph: what can be read back from it. */
module Rebuild {
  import opened Prelude
  import opened Pieces
  import opened Translate
  import opened Quoting
  import opened TranslateFacts

  // ---------------------------------------------------------------------------
  // Reading tables back out of a piece tree
  // ---------------------------------------------------------------------------

  /** A piece with any definition left off: a value as it is referred to. */
  function Stub(p: Piece): Piece {
    if p.Def? then Ref(p.id) else p
  }

  /** The two sides of a table line. */
  function Sides(line: Piece): (Piece, Piece) {
    if line.Seq? && |line.items| == 3 then (Stub(line.items[0]), Stub(line.items[2])) else (line, line)
  }

  function AllSides(lines: seq<Piece>): seq<(Piece, Piece)> {
    if lines == [] then [] else [Sides(lines[0])] + AllSides(lines[1..])
  }

  /** Every table defined in a piece, with its lines. */
  function Tables(p: Piece): map<nat, seq<(Piece, Piece)>> {
    match p
    case Str(_) => map[]
    case Seq(items, _, _, _) => AllTables(items)
    case Frame(items, _) => AllTables(items)
    case Ref(_) => map[]
    case Def(id, d) =>
      if id.Table? && d.Frame? then Tables(d)[id.addr := AllSides(d.items)] else Tables(d)
  }

  function AllTables(items: seq<Piece>): map<nat, seq<(Piece, Piece)>> {
    if items == [] then map[] else Tables(items[0]) + AllTables(items[1..])
  }

  // ---------------------------------------------------------------------------
  // What should be read back
  // ---------------------------------------------------------------------------

  /** How a value is referred to: leaves as they are written, objects by their identity. */
  function Face(v: Value): Piece {
    match v
    case String(s) => StringPiece(s)
    case Number(_, text) => NumberPiece(text)
    case _ => Ref(v)
  }

  function KeyFace(row: Row): Piece {
    if row.Meta? then METATABLE
    else if IdentFriendly(row.key) then KeyPiece(row.key.s)
    else Face(row.key)
  }

  function Faces(rows: seq<Row>): seq<(Piece, Piece)> {
    if rows == [] then [] else [(KeyFace(rows[0]), Face(rows[0].val))] + Faces(rows[1..])
  }

  predicate HasMeta(o: Object) {
    o.meta.Some? && o.meta.value != Bool(false)
  }

  /** How a key is written: as a plain name if it can be, and otherwise like any value. */
  function KeySide(key: Value): Piece {
    if IdentFriendly(key) then KeyPiece(key.s) else Face(key)
  }

  /** The lines of a table: its metatable under its label, if it has one, and then its pairs, in order. */
  predicate Lines(o: Object, lines: seq<(Piece, Piece)>) {
    var k := if HasMeta(o) then 1 else 0;
    && |lines| == k + |o.entries|
    && (k == 1 ==> lines[0] == (METATABLE, Face(o.meta.value)))
    && forall i | 0 <= i < |o.entries| :: lines[k + i] == (KeySide(o.entries[i].0), Face(o.entries[i].1))
  }

  lemma {:induction false} FacesAre(rows: seq<Row>)
    ensures |Faces(rows)| == |rows|
    ensures forall i | 0 <= i < |rows| :: Faces(rows)[i] == (KeyFace(rows[i]), Face(rows[i].val))
  {
    if rows != [] {
      FacesAre(rows[1..]);
      assert forall i | 0 < i < |rows| :: rows[i] == rows[1..][i - 1];
    }
  }

  lemma LinesAre(o: Object)
    ensures Lines(o, Faces(Rows(o)))
  {
    EntriesAre(o.entries);
    FacesAre(Rows(o));
  }

  /** The tables met between `a` and `b` are those of `m`, each with one line for every one of its rows. */
  ghost predicate Describes(h: Heap, m: map<nat, seq<(Piece, Piece)>>, a: Seen, b: Seen) {
    && (forall t :: t in m <==> Table(t) in b.occur && Table(t) !in a.occur)
    && (forall t | t in m :: t in h && m[t] == Faces(Rows(h[t])))
  }

  lemma TablesOfOne(a: Piece)
    ensures AllTables([a]) == Tables(a)
  {
    assert [a][1..] == [];
  }

  lemma TablesOfThree(a: Piece, b: Piece, c: Piece)
    requires Tables(b) == map[]
    ensures AllTables([a, b, c]) == Tables(a) + Tables(c)
  {
    assert [b, c][1..] == [c];
    assert [a, b, c][1..] == [b, c];
    TablesOfOne(c);
    assert AllTables([b, c]) == Tables(b) + AllTables([c]);
  }

  lemma LeafTables(text: string, colors: string, s: string)
    ensures Tables(Colored(text, colors)) == map[]
    ensures Tables(StringPiece(s)) == map[]
  {
    TablesOfOne(Str(text));
    if |s| <= MAX_STR_LEN {
      TablesOfOne(Str(Quote(s)));
    } else {
      var a, b := Str(Quote(s[..STR_HALF])), Str(Quote(s[|s| - STR_HALF..]));
      TablesOfOne(Str("..."));
      TablesOfThree(a, Colored("...", C_DI), b);
    }
  }

  lemma {:induction false} WalkDescribes(h: Heap, v: Value, st: Seen)
    requires Closed(h) && Exists(h, v)
    ensures Describes(h, Tables(Walk(h, v, st).0), st, Walk(h, v, st).1)
    ensures Stub(Walk(h, v, st).0) == Face(v)
    decreases |Unmet(h, st)|, 0
  {
    match v
    case String(s) => LeafTables("", "", s);
    case Number(_, text) => LeafTables(text, C_M + C_BR, "");
    case Table(a) =>
      if v !in st.occur {
        TouchShrinks(h, v, st);
        RowsDescribe(h, Rows(h[a]), Touch(v, st));
      }
    case Function(_) =>
    case Bool(_) =>
    case Other(_, _, _) =>
  }

  lemma {:induction false} RowsDescribe(h: Heap, rows: seq<Row>, st: Seen)
    requires Closed(h) && forall row | row in rows :: RowExists(h, row)
    ensures Describes(h, AllTables(WalkRows(h, rows, st).0), st, WalkRows(h, rows, st).1)
    ensures AllSides(WalkRows(h, rows, st).0) == Faces(rows)
    decreases |Unmet(h, st)|, 3 + |rows|
  {
    if rows != [] {
      var (first, st1) := WalkRow(h, rows[0], st);
      RowDescribes(h, rows[0], st);
      UnmetShrinks(h, st, st1);
      RowsDescribe(h, rows[1..], st1);
      var rest := WalkRows(h, rows[1..], st1).0;
      assert ([first] + rest)[1..] == rest;
    }
  }

  lemma {:induction false} RowDescribes(h: Heap, row: Row, st: Seen)
    requires Closed(h) && RowExists(h, row)
    ensures Describes(h, Tables(WalkRow(h, row, st).0), st, WalkRow(h, row, st).1)
    ensures Sides(WalkRow(h, row, st).0) == (KeyFace(row), Face(row.val))
    decreases |Unmet(h, st)|, 2
  {
    var (key, st1) := WalkKey(h, row, st);
    LeafTables("=", C_DI, "");
    if row.Meta? {
      LeafTables("<metatable>", C_IT + C_Y, "");
    } else if IdentFriendly(row.key) {
      LeafTables(row.key.s, C_M, "");
    } else {
      WalkDescribes(h, row.key, st);
    }
    UnmetShrinks(h, st, st1);
    WalkDescribes(h, row.val, st1);
    TablesOfThree(key, EQ, Walk(h, row.val, st1).0);
  }

  /**
   * Resolving ids through definitions rebuilds the graph: the tables defined in the tree are exactly those
   * reachable from the root, and the lines of each are its metatable, if it has one, and its pairs, in order.
   */
  lemma TreeRebuildsGraph(h: Heap, root: Value)
    requires Closed(h) && Exists(h, root) && Tracked(root)
    ensures forall t :: t in Tables(Walk(h, root, NOTHING).0) <==> Reachable(h, root, Table(t))
    ensures forall t | t in Tables(Walk(h, root, NOTHING).0) ::
              t in h && Lines(h[t], Tables(Walk(h, root, NOTHING).0)[t])
  {
    var tables := Tables(Walk(h, root, NOTHING).0);
    WalkDescribes(h, root, NOTHING);
    WalkSpans(h, root);
    forall t | t in tables
      ensures t in h && Lines(h[t], tables[t])
    {
      LinesAre(h[t]);
    }
  }

  // ---------------------------------------------------------------------------
  // Faces identify values, up to abbreviated strings
  // ---------------------------------------------------------------------------

  lemma QuoteInjective(s: string, t: string)
    requires Quote(s) == Quote(t)
    ensures s == t
  {
    assert EscapeAll(s) == Quote(s)[1..|Quote(s)| - 1];
    assert EscapeAll(t) == Quote(t)[1..|Quote(t)| - 1];
    ReadsBack(s);
    ReadsBack(t);
  }

  /** A value shown in full: anything but a string over the length limit. */
  predicate InFull(v: Value) {
    v.String? ==> |v.s| <= MAX_STR_LEN
  }

  /** A value as far as it is written: of a number, only its text. */
  function AsWritten(v: Value): Value {
    if v.Number? then Number(0, v.text) else v
  }

  /** Values shown in full are written the same way exactly if they are the same, number texts standing for numbers. */
  lemma FaceIff(v: Value, w: Value)
    requires InFull(v) && InFull(w)
    ensures Face(v) == Face(w) <==> AsWritten(v) == AsWritten(w)
  {
    if Face(v) == Face(w) {
      if v.String? && w.String? {
        assert Face(v).items[0].text == Face(w).items[0].text;
        QuoteInjective(v.s, w.s);
      } else if v.Number? && w.Number? {
        assert Face(v).items[0].text == Face(w).items[0].text;
      }
    }
  }

  /** Everything an object holds is shown in full. */
  predicate ObjectInFull(o: Object) {
    (HasMeta(o) ==> InFull(o.meta.value))
    && forall i | 0 <= i < |o.entries| :: InFull(o.entries[i].0) && InFull(o.entries[i].1)
  }

  /** Two objects with the same metatable and the same pairs in the same order, as far as they are written. */
  predicate SameObject(a: Object, b: Object) {
    && (HasMeta(a) <==> HasMeta(b)) && (HasMeta(a) ==> AsWritten(a.meta.value) == AsWritten(b.meta.value))
    && |a.entries| == |b.entries|
    && forall i | 0 <= i < |a.entries| ::
         AsWritten(a.entries[i].0) == AsWritten(b.entries[i].0)
         && AsWritten(a.entries[i].1) == AsWritten(b.entries[i].1)
  }

  /** Two objects whose lines are written the same way. */
  predicate SameLines(a: Object, b: Object) {
    && (HasMeta(a) <==> HasMeta(b)) && (HasMeta(a) ==> Face(a.meta.value) == Face(b.meta.value))
    && |a.entries| == |b.entries|
    && forall i | 0 <= i < |a.entries| ::
         KeySide(a.entries[i].0) == KeySide(b.entries[i].0) && Face(a.entries[i].1) == Face(b.entries[i].1)
  }

  lemma KeySideIff(v: Value, w: Value)
    requires InFull(v) && InFull(w)
    ensures KeySide(v) == KeySide(w) <==> AsWritten(v) == AsWritten(w)
  {
    assert |C_M| != |C_M + C_BR| && C_M != C_G;
    if IdentFriendly(v) && IdentFriendly(w) {
      assert KeySide(v) == KeySide(w) ==> KeySide(v).items[0].text == KeySide(w).items[0].text;
    } else if !IdentFriendly(v) && !IdentFriendly(w) {
      FaceIff(v, w);
    }
  }

  lemma SameObjectIff(a: Object, b: Object)
    requires ObjectInFull(a) && ObjectInFull(b)
    ensures SameLines(a, b) <==> SameObject(a, b)
  {
    if HasMeta(a) && HasMeta(b) {
      FaceIff(a.meta.value, b.meta.value);
    }
    forall i | 0 <= i < |a.entries| && i < |b.entries|
      ensures KeySide(a.entries[i].0) == KeySide(b.entries[i].0)
         <==> AsWritten(a.entries[i].0) == AsWritten(b.entries[i].0)
      ensures Face(a.entries[i].1) == Face(b.entries[i].1)
         <==> AsWritten(a.entries[i].1) == AsWritten(b.entries[i].1)
    {
      KeySideIff(a.entries[i].0, b.entries[i].0);
      FaceIff(a.entries[i].1, b.entries[i].1);
    }
  }

  /** No key is written like the label of a metatable. */
  lemma LabelIsOwn(key: Value)
    ensures KeySide(key) != METATABLE
  {
    assert METATABLE.colors.value == C_IT + C_Y;
    assert |C_IT + C_Y| > |C_M| && |C_IT + C_Y| > |C_G|;
    assert (C_IT + C_Y)[2] == '3' && (C_M + C_BR)[2] == '3' && (C_IT + C_Y)[3] == 'm' && (C_M + C_BR)[3] == '5';
  }

  lemma SameLinesMatch(a: Object, x: seq<(Piece, Piece)>, b: Object, y: seq<(Piece, Piece)>)
    requires SameLines(a, b) && Lines(a, x) && Lines(b, y)
    ensures x == y
  {
    var k := if HasMeta(a) then 1 else 0;
    forall j | k <= j < |x|
      ensures x[j] == y[j]
    {
      assert x[k + (j - k)] == (KeySide(a.entries[j - k].0), Face(a.entries[j - k].1));
      assert y[k + (j - k)] == (KeySide(b.entries[j - k].0), Face(b.entries[j - k].1));
    }
  }

  lemma SameLinesIff(a: Object, b: Object)
    ensures SameLines(a, b) <==> Faces(Rows(a)) == Faces(Rows(b))
  {
    var x, y := Faces(Rows(a)), Faces(Rows(b));
    LinesAre(a);
    LinesAre(b);
    if SameLines(a, b) {
      SameLinesMatch(a, x, b, y);
    }
    if x == y && HasMeta(a) != HasMeta(b) {
      if HasMeta(a) {
        LabelIsOwn(b.entries[0].0);
      } else {
        LabelIsOwn(a.entries[0].0);
      }
      assert false;
    }
    if x == y {
      var k := if HasMeta(a) then 1 else 0;
      forall i | 0 <= i < |a.entries|
        ensures KeySide(a.entries[i].0) == KeySide(b.entries[i].0) && Face(a.entries[i].1) == Face(b.entries[i].1)
      {
        assert x[k + i] == y[k + i];
      }
    }
  }

  // ---------------------------------------------------------------------------
  // The tree is the same exactly if the graph is, as far as it is written
  // ---------------------------------------------------------------------------

  /** Every table reachable from `v` has the same lines in both heaps. */
  ghost predicate Alike(h1: Heap, h2: Heap, v: Value) {
    forall t | Reachable(h1, v, Table(t)) :: t in h1 && t in h2 && SameLines(h1[t], h2[t])
  }

  ghost predicate RowsAlike(h1: Heap, h2: Heap, rows: seq<Row>) {
    forall v | InRows(rows, v) :: Alike(h1, h2, v)
  }

  lemma AlikeBelow(h1: Heap, h2: Heap, v: Value)
    requires Alike(h1, h2, v) && v.Table? && v.addr in h1
    ensures v.addr in h2 && Faces(Rows(h1[v.addr])) == Faces(Rows(h2[v.addr]))
    ensures RowsAlike(h1, h2, Rows(h1[v.addr]))
  {
    ReachSelf(h1, v);
    SameLinesIff(h1[v.addr], h2[v.addr]);
    forall x, t | InRows(Rows(h1[v.addr]), x) && Reachable(h1, x, Table(t))
      ensures Reachable(h1, v, Table(t))
    {
      EdgeIff(h1, v, x);
      ReachStep(h1, v, x, Table(t));
    }
  }

  lemma UntrackedAlike(h1: Heap, h2: Heap, v: Value)
    requires !Tracked(v)
    ensures Alike(h1, h2, v)
  {
  }

  lemma {:induction false} SameWalk(h1: Heap, v: Value, h2: Heap, w: Value, st: Seen)
    requires Closed(h1) && Exists(h1, v) && Closed(h2) && Exists(h2, w)
    requires Face(v) == Face(w) && Alike(h1, h2, v)
    ensures Walk(h1, v, st) == Walk(h2, w, st)
    decreases |Unmet(h1, st)|, 0
  {
    if v.Table? && v !in st.occur {
      TouchShrinks(h1, v, st);
      AlikeBelow(h1, h2, v);
      SameRows(h1, Rows(h1[v.addr]), h2, Rows(h2[v.addr]), Touch(v, st));
    }
  }

  lemma {:induction false} SameRows(h1: Heap, a: seq<Row>, h2: Heap, b: seq<Row>, st: Seen)
    requires Closed(h1) && forall row | row in a :: RowExists(h1, row)
    requires Closed(h2) && forall row | row in b :: RowExists(h2, row)
    requires Faces(a) == Faces(b) && RowsAlike(h1, h2, a)
    ensures WalkRows(h1, a, st) == WalkRows(h2, b, st)
    decreases |Unmet(h1, st)|, 3 + |a|
  {
    if a != [] && b != [] {
      assert Faces(a)[0] == (KeyFace(a[0]), Face(a[0].val)) && Faces(b)[0] == (KeyFace(b[0]), Face(b[0].val));
      assert Faces(a)[1..] == Faces(a[1..]) && Faces(b)[1..] == Faces(b[1..]);
      SameRow(h1, a[0], h2, b[0], a, st);
      var st1 := WalkRow(h1, a[0], st).1;
      UnmetShrinks(h1, st, st1);
      assert RowsAlike(h1, h2, a[1..]) by {
        assert forall v | InRows(a[1..], v) :: InRows(a, v);
      }
      SameRows(h1, a[1..], h2, b[1..], st1);
    }
  }

  lemma LeafWalk(h: Heap, v: Value, st: Seen)
    requires Closed(h) && !Tracked(v)
    ensures Walk(h, v, st) == (Face(v), st)
  {
  }

  /** A key that is no object is written in place, and nothing is met. */
  lemma PlainKey(h: Heap, row: Row, st: Seen)
    requires Closed(h) && RowExists(h, row) && !KeyFace(row).Ref?
    ensures WalkKey(h, row, st) == (KeyFace(row), st)
  {
  }

  lemma {:induction false} SameRow(h1: Heap, a: Row, h2: Heap, b: Row, rows: seq<Row>, st: Seen)
    requires Closed(h1) && RowExists(h1, a) && Closed(h2) && RowExists(h2, b)
    requires KeyFace(a) == KeyFace(b) && Face(a.val) == Face(b.val)
    requires a in rows && RowsAlike(h1, h2, rows)
    ensures WalkRow(h1, a, st) == WalkRow(h2, b, st)
    decreases |Unmet(h1, st)|, 2
  {
    var st1 := WalkKey(h1, a, st).1;
    if KeyFace(a).Ref? {
      assert InRow(a, a.key);
      SameWalk(h1, a.key, h2, b.key, st);
    } else {
      PlainKey(h1, a, st);
      PlainKey(h2, b, st);
    }
    assert WalkKey(h1, a, st) == WalkKey(h2, b, st);
    UnmetShrinks(h1, st, st1);
    if Tracked(a.val) {
      assert InRow(a, a.val);
    } else {
      UntrackedAlike(h1, h2, a.val);
    }
    SameWalk(h1, a.val, h2, b.val, st1);
  }

  /**
   * Two values are translated to the same tree exactly if they are written the same way and so is every line
   * of every table below them: nothing of the graph is lost beyond what a line leaves out.
   */
  lemma SameTreeIff(h1: Heap, v1: Value, h2: Heap, v2: Value)
    requires Closed(h1) && Exists(h1, v1) && Closed(h2) && Exists(h2, v2)
    ensures Walk(h1, v1, NOTHING).0 == Walk(h2, v2, NOTHING).0 <==> Face(v1) == Face(v2) && Alike(h1, h2, v1)
  {
    if Walk(h1, v1, NOTHING).0 == Walk(h2, v2, NOTHING).0 {
      WalkDescribes(h1, v1, NOTHING);
      WalkDescribes(h2, v2, NOTHING);
      if Tracked(v1) {
        TreesAlike(h1, v1, h2, v2);
      } else {
        UntrackedAlike(h1, h2, v1);
      }
    } else if Face(v1) == Face(v2) && Alike(h1, h2, v1) {
      SameWalk(h1, v1, h2, v2, NOTHING);
    }
  }

  lemma SameLists(a: Object, b: Object, lines: seq<(Piece, Piece)>)
    requires Lines(a, lines) && Lines(b, lines)
    ensures SameLines(a, b)
  {
    LinesAre(a);
    LinesAre(b);
    SameLinesMatch(a, Faces(Rows(a)), a, lines);
    SameLinesMatch(b, Faces(Rows(b)), b, lines);
    SameLinesIff(a, b);
  }

  lemma TreesAlike(h1: Heap, v1: Value, h2: Heap, v2: Value)
    requires Closed(h1) && Exists(h1, v1) && Tracked(v1)
    requires Closed(h2) && Exists(h2, v2) && Tracked(v2)
    requires Walk(h1, v1, NOTHING).0 == Walk(h2, v2, NOTHING).0
    ensures Alike(h1, h2, v1)
    ensures forall t :: Reachable(h1, v1, Table(t)) <==> Reachable(h2, v2, Table(t))
  {
    TreeRebuildsGraph(h1, v1);
    TreeRebuildsGraph(h2, v2);
    var tables := Tables(Walk(h1, v1, NOTHING).0);
    forall t | Reachable(h1, v1, Table(t))
      ensures t in h1 && t in h2 && SameLines(h1[t], h2[t])
    {
      assert t in tables;
      SameLists(h1[t], h2[t], tables[t]);
    }
  }

  ghost predicate GraphInFull(h: Heap, root: Value) {
    forall t | Reachable(h, root, Table(t)) && t in h :: ObjectInFull(h[t])
  }

  /**
   * Two objects translated to the same tree are the same object with the same tables below it, line by line,
   * when no string in either is abbreviated; numbers are told apart only by their texts.
   */
  lemma SameTreeSameGraph(h1: Heap, v1: Value, h2: Heap, v2: Value)
    requires Closed(h1) && Exists(h1, v1) && Tracked(v1) && GraphInFull(h1, v1)
    requires Closed(h2) && Exists(h2, v2) && Tracked(v2) && GraphInFull(h2, v2)
    requires Walk(h1, v1, NOTHING).0 == Walk(h2, v2, NOTHING).0
    ensures v1 == v2
    ensures forall t :: Reachable(h1, v1, Table(t)) <==> Reachable(h2, v2, Table(t))
    ensures forall t | Reachable(h1, v1, Table(t)) ::
              t in h1 && t in h2 && SameObject(h1[t], h2[t])
  {
    SameTreeIff(h1, v1, h2, v2);
    TreesAlike(h1, v1, h2, v2);
    forall t | Reachable(h1, v1, Table(t))
      ensures t in h1 && t in h2 && SameObject(h1[t], h2[t])
    {
      SameObjectIff(h1[t], h2[t]);
    }
  }

  /** A heap with one table, which has one pair. */
  function OnePair(key: Value, val: Value): Heap {
    map[0 := Object(None, [(key, val)])]
  }

  lemma OnePairTree(key: Value, val: Value)
    requires key.Number? && !Tracked(val)
    ensures Closed(OnePair(key, val))
    ensures Walk(OnePair(key, val), Table(0), NOTHING).0
         == Def(Table(0), Frame([Bare([Face(key), EQ, Face(val)])], BRACKETS))
  {
    var h, row := OnePair(key, val), Entry(key, val);
    var es := [(key, val)];
    assert es[1..] == [] && Entries(es) == [row];
    assert Rows(h[0]) == [row];
    var st := Touch(Table(0), NOTHING);
    assert [row][1..] == [];
    LeafWalk(h, key, st);
    LeafWalk(h, val, st);
    assert WalkKey(h, row, st) == (Face(key), st);
    assert WalkRows(h, [], st) == ([], st);
    assert WalkRows(h, [row], st).0 == [WalkRow(h, row, st).0];
  }

  /** Different numbers can have one text: tables holding them are then translated to the same tree. */
  lemma NumbersMerge(key: Value, i: nat, j: nat, text: string)
    requires key.Number?
    ensures var h1, h2 := OnePair(key, Number(i, text)), OnePair(key, Number(j, text));
            Closed(h1) && Closed(h2) && Walk(h1, Table(0), NOTHING).0 == Walk(h2, Table(0), NOTHING).0
  {
    OnePairTree(key, Number(i, text));
    OnePairTree(key, Number(j, text));
  }
}
