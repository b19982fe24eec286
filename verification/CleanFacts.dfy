/** What the two passes together guarantee about names in the printed tree. */
module CleanFacts {
  import opened Pieces
  import opened Namers
  import opened Translate
  import opened TranslateFacts
  import opened Clean

  // ---------------------------------------------------------------------------
  // No id is left
  // ---------------------------------------------------------------------------

  lemma NoIdsIn(items: seq<Piece>)
    requires forall p | p in items :: NoIds(p)
    ensures NoneIds(items)
  {
  }

  /** Whatever the names, as long as they are pieces without ids, cleaning leaves no id node. */
  lemma {:induction false} CleanLeavesNoIds(p: Piece, names: Names)
    requires forall v | v in names :: NoIds(names[v])
    ensures NoIds(Cleaned(p, names))
  {
    match p
    case Str(_) =>
    case Seq(items, _, _, _) => AllLeaveNoIds(items, names);
    case Frame(items, _) => AllLeaveNoIds(items, names);
    case Ref(id) => NodesWithoutIds(id, names);
    case Def(id, d) =>
      CleanLeavesNoIds(d, names);
      NodesWithoutIds(id, names);
      if id in names {
        NoIdsIn([Str("is")]);
        NoIdsIn([Header(id, names[id]), IS, Cleaned(d, names)]);
      }
  }

  lemma {:induction false} AllLeaveNoIds(items: seq<Piece>, names: Names)
    requires forall v | v in names :: NoIds(names[v])
    ensures NoneIds(AllCleaned(items, names))
  {
    if items != [] {
      CleanLeavesNoIds(items[0], names);
      AllLeaveNoIds(items[1..], names);
    }
  }

  lemma NodesWithoutIds(id: Value, names: Names)
    requires forall v | v in names :: NoIds(names[v])
    ensures id in names ==> NoIds(Header(id, names[id]))
    ensures NoIds(Anonymous(id))
  {
    NoIdsIn([Str("<"), Str(TypeName(id)), Str(">")]);
    if id in names {
      NoIdsIn([Str("<"), Str(TypeName(id)), Str(" "), names[id], Str(">")]);
    }
  }

  // ---------------------------------------------------------------------------
  // The translation is unambiguous
  // ---------------------------------------------------------------------------

  lemma UnambiguousIn(items: seq<Piece>)
    requires forall p | p in items :: Unambiguous(p)
    ensures NoneAmbiguous(items)
  {
  }

  lemma LeafUnambiguous(text: string, colors: string, s: string)
    ensures colors != C_IT ==> Unambiguous(Colored(text, colors))
    ensures Unambiguous(StringPiece(s))
  {
    UnambiguousIn([Str(text)]);
    UnambiguousIn(StringPiece(s).items) by {
      UnambiguousIn([Str("...")]);
    }
  }

  lemma {:induction false} WalkUnambiguous(h: Heap, v: Value, st: Seen)
    requires Closed(h) && Exists(h, v)
    ensures Unambiguous(Walk(h, v, st).0)
    decreases |Unmet(h, st)|, 0
  {
    match v
    case String(s) => LeafUnambiguous("", "", s);
    case Number(_, text) =>
      assert |C_M + C_BR| != |C_IT|;
      LeafUnambiguous(text, C_M + C_BR, "");
    case Table(a) =>
      if v !in st.occur {
        TouchShrinks(h, v, st);
        RowsUnambiguous(h, Rows(h[a]), Touch(v, st));
      }
    case Function(_) =>
    case Bool(_) =>
    case Other(_, _, _) =>
  }

  lemma {:induction false} RowsUnambiguous(h: Heap, rows: seq<Row>, st: Seen)
    requires Closed(h) && forall row | row in rows :: RowExists(h, row)
    ensures NoneAmbiguous(WalkRows(h, rows, st).0)
    decreases |Unmet(h, st)|, 3 + |rows|
  {
    if rows != [] {
      var (first, st1) := WalkRow(h, rows[0], st);
      RowUnambiguous(h, rows[0], st);
      UnmetShrinks(h, st, st1);
      RowsUnambiguous(h, rows[1..], st1);
      var rest := WalkRows(h, rows[1..], st1).0;
      assert ([first] + rest)[1..] == rest;
    }
  }

  lemma {:induction false} RowUnambiguous(h: Heap, row: Row, st: Seen)
    requires Closed(h) && RowExists(h, row)
    ensures Unambiguous(WalkRow(h, row, st).0)
    decreases |Unmet(h, st)|, 2
  {
    var (key, st1) := WalkKey(h, row, st);
    LeafUnambiguous("=", C_DI, "");
    if row.Meta? {
      assert |C_IT + C_Y| != |C_IT|;
      LeafUnambiguous("<metatable>", C_IT + C_Y, "");
    } else if IdentFriendly(row.key) {
      LeafUnambiguous(row.key.s, C_M, "");
    } else {
      WalkUnambiguous(h, row.key, st);
    }
    UnmetShrinks(h, st, st1);
    WalkUnambiguous(h, row.val, st1);
    UnambiguousIn([key, EQ, Walk(h, row.val, st1).0]);
  }

  // ---------------------------------------------------------------------------
  // Definitions come first
  // ---------------------------------------------------------------------------

  /**
   * Reading the sites in order, with the names already met: a site defines its name exactly if the name
   * has not been met and is not a function's, and nothing but a function goes unnamed.
   */
  predicate Introduced(met: set<Piece>, sites: seq<Site>)
    decreases sites
  {
    sites == []
    || match sites[0]
       case Named(kind, name, def) =>
         (def <==> kind != "function" && name !in met) && Introduced(met + {name}, sites[1..])
       case Unnamed(kind) => kind == "function" && Introduced(met, sites[1..])
  }

  ghost function NamesMet(st: Seen, names: Names): set<Piece> {
    set v | v in st.occur && v in names && v != Bool(false) :: names[v]
  }

  predicate Distinct(names: Names) {
    forall v, w | v in names && w in names && names[v] == names[w] :: v == w
  }

  lemma {:induction false} NamedStays(v: Value, st: Seen, ms: seq<Mention>)
    requires v in st.named
    ensures v in Replay(st, ms).named && Replay(st, ms).named[v] == st.named[v]
    decreases ms
  {
    if ms != [] {
      NamedStays(v, Touch(ms[0].id, st), ms[1..]);
    }
  }

  lemma MetStep(st: Seen, id: Value, names: Names)
    requires Distinct(names)
    ensures NamesMet(Touch(id, st), names)
         == NamesMet(st, names) + if id != Bool(false) && id in names then {names[id]} else {}
    ensures id != Bool(false) && id in names ==> (names[id] in NamesMet(st, names) <==> id in st.occur)
  {
  }

  lemma {:induction false} MentionsIntroduced(st: Seen, ms: seq<Mention>, names: Names)
    requires DefinedFirst(st, ms) && names == Replay(st, ms).named && Distinct(names)
    ensures Introduced(NamesMet(st, names), SitesOf(ms, names))
    decreases ms
  {
    if ms != [] {
      var m, st1 := ms[0], Touch(ms[0].id, st);
      MentionsIntroduced(st1, ms[1..], names);
      if m.id in st.occur {
        NamedStays(m.id, st1, ms[1..]);
      }
      MetStep(st, m.id, names);
      FirstIntroduced(NamesMet(st, names), m, names, SitesOf(ms[1..], names));
    }
  }

  lemma FirstIntroduced(met: set<Piece>, m: Mention, names: Names, rest: seq<Site>)
    requires m.id in names && m.id != Bool(false)
             ==> (m.def <==> !m.id.Function? && names[m.id] !in met) && Introduced(met + {names[m.id]}, rest)
    requires m.id !in names || m.id == Bool(false)
             ==> Introduced(met + {}, rest) && (m.id == Bool(false) || m.def || m.id.Function?)
    ensures Introduced(met, SiteOf(m, names) + rest)
  {
    var here := SiteOf(m, names);
    assert met + {} == met;
    if here == [] {
      assert here + rest == rest;
    } else {
      assert (here + rest)[0] == here[0] && (here + rest)[1..] == rest;
    }
  }

  function CountSites(name: Piece, sites: seq<Site>): nat {
    if sites == [] then 0
    else (if sites[0].Named? && sites[0].name == name then 1 else 0) + CountSites(name, sites[1..])
  }

  lemma {:induction false} CountSitesOf(v: Value, ms: seq<Mention>, names: Names)
    requires Distinct(names) && v in names && v != Bool(false)
    ensures CountSites(names[v], SitesOf(ms, names)) == Count(v, ms)
    decreases ms
  {
    if ms != [] {
      CountSitesOf(v, ms[1..], names);
      var rest := SitesOf(ms[1..], names);
      var here := SiteOf(ms[0], names);
      assert here == [] ==> here + rest == rest;
      assert here != [] ==> (here + rest)[1..] == rest;
    }
  }

  /** The cleaned tree of a value, as `display` receives it. */
  function Prepared(h: Heap, root: Value): Piece
    requires Closed(h) && Exists(h, root)
  {
    var (p, st) := Walk(h, root, NOTHING);
    Cleaned(p, st.named)
  }

  /**
   * In the tree handed to the layout engine, every named object other than a function is defined at its
   * first site in print order and only there; an object is never shown as a bare type unless it is a
   * function; and an object other than `false` with a name is shown under it once for every mention,
   * which is at least twice.
   */
  lemma NamesIntroduceThemselves(h: Heap, root: Value)
    requires Closed(h) && Exists(h, root)
    ensures Introduced({}, Sites(Prepared(h, root)))
    ensures forall v | v in Walk(h, root, NOTHING).1.named && v != Bool(false) ::
              CountSites(Walk(h, root, NOTHING).1.named[v], Sites(Prepared(h, root)))
              == Count(v, Mentions(Walk(h, root, NOTHING).0)) >= 2
    ensures NoIds(Prepared(h, root))
  {
    var (p, st) := Walk(h, root, NOTHING);
    WalkUnambiguous(h, root, NOTHING);
    CleanKeepsSites(p, st.named);
    WalkReplays(h, root, NOTHING);
    NamedIffRepeated(h, root);
    assert NamesMet(NOTHING, st.named) == {};
    MentionsIntroduced(NOTHING, Mentions(p), st.named);
    forall v | v in st.named && v != Bool(false)
      ensures CountSites(st.named[v], Sites(Cleaned(p, st.named))) == Count(v, Mentions(p)) >= 2
    {
      CountSitesOf(v, Mentions(p), st.named);
    }
    forall v | v in st.named
      ensures NoIds(st.named[v])
    {
      var k: nat :| k < st.calls && st.named[v] == NthName(k);
      NoIdsIn([Str(NthText(k))]);
    }
    CleanLeavesNoIds(p, st.named);
  }
}
