/** What the translation stage guarantees about the piece tree and the names, for every heap. */
module TranslateFacts {
  import opened Prelude
  import opened Pieces
  import opened Namers
  import opened Translate

  // ---------------------------------------------------------------------------
  // Mentions in print order
  // ---------------------------------------------------------------------------

  /** An `id` node of the piece tree, and whether it carries a definition. */
  datatype Mention = Mention(id: Value, def: bool)

  /** The id nodes in print order: a node comes before what its definition contains. */
  function Mentions(p: Piece): seq<Mention> {
    match p
    case Str(_) => []
    case Seq(items, _, _, _) => AllMentions(items)
    case Frame(items, _) => AllMentions(items)
    case Ref(id) => [Mention(id, false)]
    case Def(id, d) => [Mention(id, true)] + Mentions(d)
  }

  function AllMentions(items: seq<Piece>): seq<Mention> {
    if items == [] then [] else Mentions(items[0]) + AllMentions(items[1..])
  }

  /** What is seen after meeting these mentions one after the other. */
  function Replay(st: Seen, ms: seq<Mention>): Seen
    decreases ms
  {
    if ms == [] then st else Replay(Touch(ms[0].id, st), ms[1..])
  }

  /** A mention defines its value exactly if the value is new and not a function. */
  predicate DefinedFirst(st: Seen, ms: seq<Mention>)
    decreases ms
  {
    ms == []
    || ((ms[0].def <==> ms[0].id !in st.occur && !ms[0].id.Function?)
        && DefinedFirst(Touch(ms[0].id, st), ms[1..]))
  }

  lemma {:induction false} ReplayAppend(st: Seen, a: seq<Mention>, b: seq<Mention>)
    ensures Replay(st, a + b) == Replay(Replay(st, a), b)
    ensures DefinedFirst(st, a + b) <==> DefinedFirst(st, a) && DefinedFirst(Replay(st, a), b)
    decreases a
  {
    if a == [] {
      assert a + b == b;
    } else {
      assert (a + b)[0] == a[0] && (a + b)[1..] == a[1..] + b;
      ReplayAppend(Touch(a[0].id, st), a[1..], b);
    }
  }

  lemma MentionsOfThree(a: Piece, b: Piece, c: Piece)
    ensures AllMentions([a]) == Mentions(a)
    ensures AllMentions([a, b, c]) == Mentions(a) + Mentions(b) + Mentions(c)
  {
    assert [a][1..] == [] && [c][1..] == [];
    assert [b, c][1..] == [c];
    assert [a, b, c][1..] == [b, c];
    assert AllMentions([c]) == Mentions(c) + AllMentions([]);
    assert AllMentions([b, c]) == Mentions(b) + AllMentions([c]);
    assert AllMentions([a, b, c]) == Mentions(a) + AllMentions([b, c]);
  }

  lemma MentionsOfRow(key: Piece, val: Piece)
    ensures Mentions(Bare([key, EQ, val])) == Mentions(key) + Mentions(val)
  {
    MentionsOfThree(key, EQ, val);
    LeafMentions("=", C_DI, "");
  }

  /** Short or abbreviated, a leaf mentions nothing. */
  lemma LeafMentions(text: string, colors: string, s: string)
    ensures Mentions(Colored(text, colors)) == []
    ensures Mentions(StringPiece(s)) == []
  {
    MentionsOfThree(Str(text), Str(""), Str(""));
    if |s| <= MAX_STR_LEN {
      MentionsOfThree(Str(Quote(s)), Str(""), Str(""));
    } else {
      var a, b := Str(Quote(s[..STR_HALF])), Str(Quote(s[|s| - STR_HALF..]));
      MentionsOfThree(Str("..."), a, b);
      MentionsOfThree(a, Colored("...", C_DI), b);
    }
  }

  /**
   * The walk sees exactly what meeting its own id nodes in print order would make it see, and a node
   * carries a definition exactly when it is the first mention of a value other than a function.
   */
  lemma {:induction false} WalkReplays(h: Heap, v: Value, st: Seen)
    requires Closed(h) && Exists(h, v)
    ensures Walk(h, v, st).1 == Replay(st, Mentions(Walk(h, v, st).0))
    ensures DefinedFirst(st, Mentions(Walk(h, v, st).0))
    decreases |Unmet(h, st)|, 0
  {
    match v
    case String(s) => LeafMentions("", "", s);
    case Number(_, text) => LeafMentions(text, C_M + C_BR, "");
    case Table(a) =>
      if v !in st.occur {
        TouchShrinks(h, v, st);
        var items := WalkRows(h, Rows(h[a]), Touch(v, st)).0;
        RowsReplay(h, Rows(h[a]), Touch(v, st));
        var ms := [Mention(v, true)] + AllMentions(items);
        assert Mentions(Walk(h, v, st).0) == ms && ms[1..] == AllMentions(items);
      }
    case Function(_) =>
    case Bool(_) => DefaultReplays(v, st);
    case Other(_, _, _) => DefaultReplays(v, st);
  }

  lemma DefaultReplays(v: Value, st: Seen)
    requires v.Bool? || v.Other?
    ensures v !in st.occur ==> Replay(st, Mentions(Def(v, Str(ToString(v))))) == Touch(v, st)
    ensures v !in st.occur ==> DefinedFirst(st, Mentions(Def(v, Str(ToString(v)))))
  {
    var ms := [Mention(v, true)];
    assert Mentions(Def(v, Str(ToString(v)))) == ms + [] == ms && ms[1..] == [];
  }

  lemma {:induction false} RowReplays(h: Heap, row: Row, st: Seen)
    requires Closed(h) && RowExists(h, row)
    ensures WalkRow(h, row, st).1 == Replay(st, Mentions(WalkRow(h, row, st).0))
    ensures DefinedFirst(st, Mentions(WalkRow(h, row, st).0))
    decreases |Unmet(h, st)|, 2
  {
    var (key, st1) := WalkKey(h, row, st);
    if row.Meta? {
      LeafMentions("<metatable>", C_IT + C_Y, "");
    } else if IdentFriendly(row.key) {
      LeafMentions(row.key.s, C_M, "");
    } else {
      WalkReplays(h, row.key, st);
    }
    UnmetShrinks(h, st, st1);
    WalkReplays(h, row.val, st1);
    var val := Walk(h, row.val, st1).0;
    MentionsOfRow(key, val);
    ReplayAppend(st, Mentions(key), Mentions(val));
  }

  lemma {:induction false} RowsReplay(h: Heap, rows: seq<Row>, st: Seen)
    requires Closed(h) && forall row | row in rows :: RowExists(h, row)
    ensures WalkRows(h, rows, st).1 == Replay(st, AllMentions(WalkRows(h, rows, st).0))
    ensures DefinedFirst(st, AllMentions(WalkRows(h, rows, st).0))
    decreases |Unmet(h, st)|, 3 + |rows|
  {
    if rows != [] {
      var (first, st1) := WalkRow(h, rows[0], st);
      RowReplays(h, rows[0], st);
      UnmetShrinks(h, st, st1);
      RowsReplay(h, rows[1..], st1);
      var rest := WalkRows(h, rows[1..], st1).0;
      assert ([first] + rest)[1..] == rest;
      ReplayAppend(st, Mentions(first), AllMentions(rest));
    }
  }

  // ---------------------------------------------------------------------------
  // Names
  // ---------------------------------------------------------------------------

  function Count(v: Value, ms: seq<Mention>): nat {
    if ms == [] then 0 else (if ms[0].id == v then 1 else 0) + Count(v, ms[1..])
  }

  lemma {:induction false} ReplayCounts(st: Seen, ms: seq<Mention>, v: Value)
    requires st.named.Keys <= st.occur
    ensures v in Replay(st, ms).occur <==> v in st.occur || Count(v, ms) >= 1
    ensures v in Replay(st, ms).named
       <==> v in st.named || Count(v, ms) + (if v in st.occur then 1 else 0) >= 2
    decreases ms
  {
    if ms != [] {
      ReplayCounts(Touch(ms[0].id, st), ms[1..], v);
    }
  }

  /** Names are results of the namer, and different values have different ones. */
  ghost predicate WellNamed(st: Seen) {
    && st.named.Keys <= st.occur
    && (forall v | v in st.named :: exists k: nat :: k < st.calls && st.named[v] == NthName(k))
    && (forall v, w | v in st.named && w in st.named && st.named[v] == st.named[w] :: v == w)
  }

  lemma TouchNamed(v: Value, st: Seen)
    requires WellNamed(st)
    ensures WellNamed(Touch(v, st))
  {
    var after := Touch(v, st);
    if v in st.occur && v !in st.named {
      forall w | w in st.named
        ensures st.named[w] != NthName(st.calls)
      {
        var k: nat :| k < st.calls && st.named[w] == NthName(k);
        if st.named[w] == NthName(st.calls) {
          NamesInjective(k, st.calls);
        }
      }
      assert after.named[v] == NthName(st.calls) && st.calls < after.calls;
      forall w | w in after.named
        ensures exists k: nat :: k < after.calls && after.named[w] == NthName(k)
      {
        if w != v {
          var k: nat :| k < st.calls && st.named[w] == NthName(k);
          assert k < after.calls && after.named[w] == NthName(k);
        }
      }
    }
  }

  lemma {:induction false} ReplayNamed(st: Seen, ms: seq<Mention>)
    requires WellNamed(st)
    ensures WellNamed(Replay(st, ms))
    decreases ms
  {
    if ms != [] {
      TouchNamed(ms[0].id, st);
      ReplayNamed(Touch(ms[0].id, st), ms[1..]);
    }
  }

  /**
   * For a whole value: an object has a name exactly if its id occurs at least twice in the piece tree,
   * and different objects have different names, however many there are.
   */
  lemma NamedIffRepeated(h: Heap, root: Value)
    requires Closed(h) && Exists(h, root)
    ensures forall v :: v in Walk(h, root, NOTHING).1.named
                   <==> Count(v, Mentions(Walk(h, root, NOTHING).0)) >= 2
    ensures WellNamed(Walk(h, root, NOTHING).1)
  {
    var ms := Mentions(Walk(h, root, NOTHING).0);
    WalkReplays(h, root, NOTHING);
    ReplayNamed(NOTHING, ms);
    forall v {
      ReplayCounts(NOTHING, ms, v);
    }
  }

  /** Every name given so far is in use, and there are as many as objects with a name. */
  ghost predicate NamesUsed(st: Seen) {
    && st.calls == |st.named.Keys|
    && forall k: nat | k < st.calls :: InUse(st.named, NthName(k))
  }

  ghost predicate InUse(named: map<Value, Piece>, name: Piece) {
    exists v :: v in named && named[v] == name
  }

  lemma {:induction false} ReplayUses(st: Seen, ms: seq<Mention>)
    requires NamesUsed(st)
    ensures NamesUsed(Replay(st, ms))
    decreases ms
  {
    if ms != [] {
      TouchUses(ms[0].id, st);
      ReplayUses(Touch(ms[0].id, st), ms[1..]);
    }
  }

  lemma TouchUses(v: Value, st: Seen)
    requires NamesUsed(st)
    ensures NamesUsed(Touch(v, st))
  {
    if v in st.occur && v !in st.named {
      NameOneMore(st.named, st.calls, v);
    }
  }

  lemma NameOneMore(named: map<Value, Piece>, calls: nat, v: Value)
    requires v !in named && calls == |named.Keys|
    requires forall k: nat | k < calls :: InUse(named, NthName(k))
    ensures calls + 1 == |named[v := NthName(calls)].Keys|
    ensures forall k: nat | k < calls + 1 :: InUse(named[v := NthName(calls)], NthName(k))
  {
    assert named[v := NthName(calls)].Keys == named.Keys + {v};
    forall k: nat | k < calls + 1
      ensures InUse(named[v := NthName(calls)], NthName(k))
    {
      StillInUse(named, v, NthName(calls), NthName(k));
    }
  }

  lemma StillInUse(named: map<Value, Piece>, v: Value, added: Piece, name: Piece)
    requires v !in named && (name == added || InUse(named, name))
    ensures InUse(named[v := added], name)
  {
    if name == added {
      assert named[v := added][v] == name;
    } else {
      var w :| w in named && named[w] == name;
      assert named[v := added][w] == name;
    }
  }

  /** The names in use are the first ones of the namer, none left out. */
  lemma NamesInSequence(h: Heap, root: Value)
    requires Closed(h) && Exists(h, root)
    ensures NamesUsed(Walk(h, root, NOTHING).1)
  {
    WalkReplays(h, root, NOTHING);
    ReplayUses(NOTHING, Mentions(Walk(h, root, NOTHING).0));
  }

  // ---------------------------------------------------------------------------
  // The walk spans the reachable graph
  // ---------------------------------------------------------------------------

  /** Values other than strings and numbers, which are met as objects with an identity. */
  predicate Tracked(v: Value) {
    !v.String? && !v.Number?
  }

  predicate InRow(row: Row, v: Value) {
    Tracked(v) && (v == row.val || (row.Entry? && v == row.key))
  }

  predicate InRows(rows: seq<Row>, v: Value) {
    exists row | row in rows :: InRow(row, v)
  }

  /** The value is the metatable of the object, or a key or a value of one of its pairs. */
  predicate Holds(o: Object, v: Value) {
    (o.meta == Some(v) && v != Bool(false))
    || exists i :: 0 <= i < |o.entries| && (o.entries[i].0 == v || o.entries[i].1 == v)
  }

  /** `b` is a key, a value or the metatable of the table `a`. */
  predicate Edge(h: Heap, a: Value, b: Value) {
    a.Table? && a.addr in h && Tracked(b) && Holds(h[a.addr], b)
  }

  lemma {:induction false} EntriesAre(es: seq<(Value, Value)>)
    ensures |Entries(es)| == |es|
    ensures forall i | 0 <= i < |es| :: Entries(es)[i] == Entry(es[i].0, es[i].1)
  {
    if es != [] {
      EntriesAre(es[1..]);
      assert forall i | 0 < i < |es| :: es[i] == es[1..][i - 1];
    }
  }

  /** The walk's lines hold what the object's fields do. */
  lemma HoldsIff(o: Object, v: Value)
    requires Tracked(v)
    ensures Holds(o, v) <==> InRows(Rows(o), v)
  {
    if Holds(o, v) {
      HeldInRows(o, v);
    }
    if InRows(Rows(o), v) {
      RowsAreHeld(o, v);
    }
  }

  lemma RowsAt(o: Object)
    ensures var k := |Rows(o)| - |o.entries|;
            && k == (if Truthy(o.meta) then 1 else 0)
            && (k == 1 ==> Rows(o)[0] == Meta(o.meta.value))
            && forall i | 0 <= i < |o.entries| :: Rows(o)[k + i] == Entry(o.entries[i].0, o.entries[i].1)
  {
    EntriesAre(o.entries);
  }

  lemma HeldInRows(o: Object, v: Value)
    requires Tracked(v) && Holds(o, v)
    ensures InRows(Rows(o), v)
  {
    var rows, k := Rows(o), |Rows(o)| - |o.entries|;
    RowsAt(o);
    if i :| 0 <= i < |o.entries| && (o.entries[i].0 == v || o.entries[i].1 == v) {
      assert rows[k + i] in rows && InRow(rows[k + i], v);
    } else {
      assert rows[0] in rows && InRow(rows[0], v);
    }
  }

  lemma RowsAreHeld(o: Object, v: Value)
    requires InRows(Rows(o), v)
    ensures Holds(o, v)
  {
    var rows, k := Rows(o), |Rows(o)| - |o.entries|;
    RowsAt(o);
    var row :| row in rows && InRow(row, v);
    var i :| 0 <= i < |rows| && rows[i] == row;
    if i >= k {
      assert rows[k + (i - k)] == Entry(o.entries[i - k].0, o.entries[i - k].1);
    }
  }

  lemma EdgeIff(h: Heap, a: Value, b: Value)
    ensures Edge(h, a, b) <==> a.Table? && a.addr in h && InRows(Rows(h[a.addr]), b)
  {
    if a.Table? && a.addr in h && Tracked(b) {
      HoldsIff(h[a.addr], b);
    }
  }

  predicate IsPath(h: Heap, path: seq<Value>) {
    path != [] && Tracked(path[0]) && forall i | 0 < i < |path| :: Edge(h, path[i - 1], path[i])
  }

  ghost predicate Reachable(h: Heap, a: Value, b: Value) {
    exists path :: IsPath(h, path) && path[0] == a && path[|path| - 1] == b
  }

  lemma ReachSelf(h: Heap, v: Value)
    requires Tracked(v)
    ensures Reachable(h, v, v)
  {
    assert IsPath(h, [v]) && [v][0] == v && [v][|[v]| - 1] == v;
  }

  lemma ReachStep(h: Heap, a: Value, b: Value, c: Value)
    requires Edge(h, a, b) && Reachable(h, b, c)
    ensures Reachable(h, a, c)
  {
    var path :| IsPath(h, path) && path[0] == b && path[|path| - 1] == c;
    var longer := [a] + path;
    assert IsPath(h, longer) by {
      forall i | 0 < i < |longer|
        ensures Edge(h, longer[i - 1], longer[i])
      {
        if i > 1 {
          assert Edge(h, path[i - 2], path[i - 1]);
        }
      }
    }
    assert longer[0] == a && longer[|longer| - 1] == c;
  }

  ghost predicate ReachableFromRows(h: Heap, rows: seq<Row>, t: Value) {
    exists x :: InRows(rows, x) && Reachable(h, x, t)
  }

  /** Everything the walk meets is reachable from where it started. */
  lemma {:induction false} WalkIsSound(h: Heap, v: Value, st: Seen, t: Value)
    requires Closed(h) && Exists(h, v)
    requires t in Walk(h, v, st).1.occur && t !in st.occur
    ensures Tracked(t) && Reachable(h, v, t)
    decreases |Unmet(h, st)|, 0
  {
    if t == v {
      ReachSelf(h, v);
    } else {
      var rows := Rows(h[v.addr]);
      TouchShrinks(h, v, st);
      RowsAreSound(h, rows, Touch(v, st), t);
      var x :| InRows(rows, x) && Reachable(h, x, t);
      EdgeIff(h, v, x);
      ReachStep(h, v, x, t);
    }
  }

  lemma {:induction false} RowsAreSound(h: Heap, rows: seq<Row>, st: Seen, t: Value)
    requires Closed(h) && forall row | row in rows :: RowExists(h, row)
    requires t in WalkRows(h, rows, st).1.occur && t !in st.occur
    ensures Tracked(t) && ReachableFromRows(h, rows, t)
    decreases |Unmet(h, st)|, 3 + |rows|
  {
    var row := rows[0];
    var st1 := WalkKey(h, row, st).1;
    var st2 := WalkRow(h, row, st).1;
    UnmetShrinks(h, st, st1);
    UnmetShrinks(h, st, st2);
    if t in st1.occur {
      WalkIsSound(h, row.key, st, t);
      KeyTracked(h, row, st, t);
      assert InRow(row, row.key);
      assert InRows(rows, row.key);
    } else if t in st2.occur {
      WalkIsSound(h, row.val, st1, t);
      ValueTracked(h, row.val, st1, t);
      assert InRow(row, row.val);
      assert InRows(rows, row.val);
    } else {
      RowsAreSound(h, rows[1..], st2, t);
      var x :| InRows(rows[1..], x) && Reachable(h, x, t);
      assert InRows(rows, x);
    }
  }

  lemma ValueTracked(h: Heap, v: Value, st: Seen, t: Value)
    requires Closed(h) && Exists(h, v)
    requires t in Walk(h, v, st).1.occur && t !in st.occur
    ensures Tracked(v)
  {
  }

  lemma KeyTracked(h: Heap, row: Row, st: Seen, t: Value)
    requires Closed(h) && RowExists(h, row) && row.Entry?
    requires t in WalkKey(h, row, st).1.occur && t !in st.occur
    ensures Tracked(row.key)
  {
  }

  /** The keys, values and metatable of every table met since `before` have been met as well. */
  ghost predicate Complete(h: Heap, before: set<Value>, after: set<Value>) {
    forall a, x | Table(a) in after && Table(a) !in before && Edge(h, Table(a), x) :: x in after
  }

  lemma {:induction false} WalkIsComplete(h: Heap, v: Value, st: Seen)
    requires Closed(h) && Exists(h, v)
    ensures Tracked(v) ==> v in Walk(h, v, st).1.occur
    ensures Complete(h, st.occur, Walk(h, v, st).1.occur)
    decreases |Unmet(h, st)|, 0
  {
    if v.Table? && v !in st.occur {
      TouchShrinks(h, v, st);
      RowsAreComplete(h, Rows(h[v.addr]), Touch(v, st));
      forall x | Edge(h, v, x)
        ensures InRows(Rows(h[v.addr]), x)
      {
        EdgeIff(h, v, x);
      }
    }
  }

  lemma {:induction false} RowsAreComplete(h: Heap, rows: seq<Row>, st: Seen)
    requires Closed(h) && forall row | row in rows :: RowExists(h, row)
    ensures forall x | InRows(rows, x) :: x in WalkRows(h, rows, st).1.occur
    ensures Complete(h, st.occur, WalkRows(h, rows, st).1.occur)
    decreases |Unmet(h, st)|, 3 + |rows|
  {
    if rows != [] {
      var row := rows[0];
      var st1 := WalkKey(h, row, st).1;
      var st2 := WalkRow(h, row, st).1;
      UnmetShrinks(h, st, st1);
      UnmetShrinks(h, st, st2);
      if row.Entry? && !IdentFriendly(row.key) {
        WalkIsComplete(h, row.key, st);
      }
      WalkIsComplete(h, row.val, st1);
      RowsAreComplete(h, rows[1..], st2);
      assert forall x | InRow(row, x) :: x in st2.occur;
      assert forall x | InRows(rows, x) :: InRow(row, x) || InRows(rows[1..], x);
    }
  }

  lemma {:induction false} PathInside(h: Heap, path: seq<Value>, met: set<Value>)
    requires IsPath(h, path) && path[0] in met && Complete(h, {}, met)
    ensures path[|path| - 1] in met
    decreases |path|
  {
    if |path| > 1 {
      var front := path[..|path| - 1];
      assert IsPath(h, front);
      PathInside(h, front, met);
      assert Edge(h, path[|path| - 2], path[|path| - 1]);
    }
  }

  /** After a top-level walk, the objects met are exactly those reachable from the root. */
  lemma WalkSpans(h: Heap, root: Value)
    requires Closed(h) && Exists(h, root) && Tracked(root)
    ensures forall t :: t in Walk(h, root, NOTHING).1.occur <==> Reachable(h, root, t)
  {
    var met := Walk(h, root, NOTHING).1.occur;
    WalkIsComplete(h, root, NOTHING);
    forall t
      ensures t in met <==> Reachable(h, root, t)
    {
      if t in met {
        WalkIsSound(h, root, NOTHING, t);
      }
      if Reachable(h, root, t) {
        var path :| IsPath(h, path) && path[0] == root && path[|path| - 1] == t;
        PathInside(h, path, met);
      }
    }
  }
}
