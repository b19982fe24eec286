/** The second pass: object identities are replaced by the names chosen during the first. */
module Clean {
  import opened Prelude
  import opened Pieces
  import opened TranslateFacts

  type Names = map<Value, Piece>

  /** `<type name>` */
  function Header(v: Value, name: Piece): Piece {
    Seq([Str("<"), Str(TypeName(v)), Str(" "), name, Str(">")], Some(C_IT), Some(""), true)
  }

  /** `<type>` */
  function Anonymous(v: Value): Piece {
    Seq([Str("<"), Str(TypeName(v)), Str(">")], Some(C_IT), Some(""), true)
  }

  /**
   * The pass as the code has it. A node whose id is `false` is not recognised as an id node, because its
   * id field tests as false: it falls through to the sequence case, as a sequence with no children.
   */
  function Cleaned(p: Piece, names: Names): Piece {
    match p
    case Str(_) => p
    case Ref(id) =>
      if id == Bool(false) then Bare([])
      else if id in names then Header(id, names[id])
      else Anonymous(id)
    case Def(id, d) =>
      if id == Bool(false) then Bare([])
      else if id in names then Bare([Header(id, names[id]), IS, Cleaned(d, names)])
      else Cleaned(d, names)
    case Frame(items, br) => Frame(AllCleaned(items, names), br)
    case Seq(items, colors, sep, tight) => Seq(AllCleaned(items, names), colors, sep, tight)
  }

  function AllCleaned(items: seq<Piece>, names: Names): (r: seq<Piece>)
    ensures |r| == |items|
    ensures forall i | 0 <= i < |items| :: r[i] == Cleaned(items[i], names)
  {
    if items == [] then [] else [Cleaned(items[0], names)] + AllCleaned(items[1..], names)
  }

  // ---------------------------------------------------------------------------
  // No id is left
  // ---------------------------------------------------------------------------

  predicate NoIds(p: Piece) {
    match p
    case Str(_) => true
    case Seq(items, _, _, _) => NoneIds(items)
    case Frame(items, _) => NoneIds(items)
    case Ref(_) => false
    case Def(_, _) => false
  }

  predicate NoneIds(items: seq<Piece>) {
    items == [] || (NoIds(items[0]) && NoneIds(items[1..]))
  }

  // ---------------------------------------------------------------------------
  // Reading the mentions back out of the cleaned tree
  // ---------------------------------------------------------------------------

  /** A place in the cleaned tree where an object is mentioned. */
  datatype Site = Named(kind: string, name: Piece, def: bool) | Unnamed(kind: string)

  predicate IsHeader(p: Piece) {
    p.Seq? && p.colors == Some(C_IT) && |p.items| == 5 && p.items[1].Str?
  }

  predicate IsAnonymous(p: Piece) {
    p.Seq? && p.colors == Some(C_IT) && |p.items| == 3 && p.items[1].Str?
  }

  predicate IsDefinition(p: Piece) {
    p.Seq? && p.colors == None && |p.items| == 3 && IsHeader(p.items[0]) && p.items[1] == IS
  }

  /** The sites of a cleaned tree in print order. */
  function Sites(p: Piece): seq<Site> {
    match p
    case Str(_) => []
    case Seq(items, _, _, _) =>
      if IsHeader(p) then [Named(items[1].text, items[3], false)]
      else if IsAnonymous(p) then [Unnamed(items[1].text)]
      else if IsDefinition(p) then [Named(items[0].items[1].text, items[0].items[3], true)] + Sites(items[2])
      else AllSites(items)
    case Frame(items, _) => AllSites(items)
    case Ref(_) => []
    case Def(_, _) => []
  }

  function AllSites(items: seq<Piece>): seq<Site> {
    if items == [] then [] else Sites(items[0]) + AllSites(items[1..])
  }

  /** What a mention turns into; a definition without a name leaves no trace. */
  function SiteOf(m: Mention, names: Names): seq<Site> {
    if m.id == Bool(false) then []
    else if m.id in names then [Named(TypeName(m.id), names[m.id], m.def)]
    else if m.def then []
    else [Unnamed(TypeName(m.id))]
  }

  function SitesOf(ms: seq<Mention>, names: Names): seq<Site> {
    if ms == [] then [] else SiteOf(ms[0], names) + SitesOf(ms[1..], names)
  }

  /** Nothing in the tree passes for a header or a definition before the ids are replaced. */
  predicate Unambiguous(p: Piece) {
    match p
    case Str(_) => true
    case Seq(items, colors, _, _) =>
      colors != Some(C_IT) && (colors == None && |items| == 3 ==> items[1] == EQ) && NoneAmbiguous(items)
    case Frame(items, _) => NoneAmbiguous(items)
    case Ref(_) => true
    case Def(id, d) => Unambiguous(d) && (id.Bool? ==> d.Str?)
  }

  predicate NoneAmbiguous(items: seq<Piece>) {
    items == [] || (Unambiguous(items[0]) && NoneAmbiguous(items[1..]))
  }

  lemma CleanedEq(names: Names)
    ensures Cleaned(EQ, names) == EQ
  {
    var items := [Str("=")];
    assert AllCleaned(items, names) == items;
  }

  /** Cleaning turns every mention into its site, in the same order, and adds no other. */
  lemma {:induction false} CleanKeepsSites(p: Piece, names: Names)
    requires Unambiguous(p)
    ensures Sites(Cleaned(p, names)) == SitesOf(Mentions(p), names)
  {
    match p
    case Str(_) =>
    case Seq(items, _, _, _) =>
      CleanedEq(names);
      AllKeepSites(items, names);
    case Frame(items, _) => AllKeepSites(items, names);
    case Ref(id) =>
      assert SitesOf([Mention(id, false)], names) == SiteOf(Mention(id, false), names) + [];
    case Def(id, d) =>
      assert Mentions(p)[1..] == Mentions(d);
      CleanKeepsSites(d, names);
  }

  lemma {:induction false} AllKeepSites(items: seq<Piece>, names: Names)
    requires NoneAmbiguous(items)
    ensures AllSites(AllCleaned(items, names)) == SitesOf(AllMentions(items), names)
  {
    if items != [] {
      CleanKeepsSites(items[0], names);
      AllKeepSites(items[1..], names);
      SitesOfAppend(Mentions(items[0]), AllMentions(items[1..]), names);
    }
  }

  lemma {:induction false} SitesOfAppend(a: seq<Mention>, b: seq<Mention>, names: Names)
    ensures SitesOf(a + b, names) == SitesOf(a, names) + SitesOf(b, names)
  {
    if a == [] {
      assert a + b == b;
    } else {
      assert (a + b)[0] == a[0] && (a + b)[1..] == a[1..] + b;
      SitesOfAppend(a[1..], b, names);
    }
  }
}
