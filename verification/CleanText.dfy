/** What a tree says before its ids are replaced: the reference for the second pass. */
module CleanText {
  import opened Pieces
  import opened Clean
  import opened Layout
  import opened LayoutFacts

  /** A word in the middle of an object's label: everything there is italic. */
  function Inside(s: string): seq<Chunk> {
    [Code(C_IT), Text(""), Text(s)]
  }

  /** `<type name>` */
  function Label(v: Value, name: seq<Chunk>): seq<Chunk> {
    [Code(C_IT), Text("<")] + Inside(TypeName(v)) + Inside(" ") + [Code(C_IT), Text("")] + name
    + Inside(">") + [Code(C_E)]
  }

  /** `<type>` */
  function TypeLabel(v: Value): seq<Chunk> {
    [Code(C_IT), Text("<")] + Inside(TypeName(v)) + Inside(">") + [Code(C_E)]
  }

  /**
   * What a tree says when its ids stand for names: an object with a name is its label, with "is" and the definition
   * where it is defined; one without a name is its definition, or its type if it has none; `false` is nothing.
   */
  function Said(p: Piece, names: Names): seq<Chunk> {
    match p
    case Str(s) => [Text(s)]
    case Seq(items, colors, sep, _) =>
      var between := Text(if sep.Some? then sep.value else " ");
      if items == [] then []
      else if colors.None? then SaidAll(items, [between], names)
      else [Code(colors.value)] + SaidAll(items, [Code(colors.value), between], names) + [Code(C_E)]
    case Frame(items, br) =>
      if items == [] then Flat(br.open) + [Text("")] + Flat(br.close)
      else
        Flat(br.open) + [Text(" ")] + SaidAll(items, [Text(br.sep), Text(" ")], names) + [Text(" ")] + Flat(br.close)
    case Ref(id) =>
      if id == Bool(false) then [] else if id in names then Label(id, Flat(names[id])) else TypeLabel(id)
    case Def(id, d) =>
      if id == Bool(false) then []
      else if id in names then
        Label(id, Flat(names[id])) + [Text(" "), Code(C_DI), Text("is"), Code(C_E), Text(" ")] + Said(d, names)
      else Said(d, names)
  }

  function SaidAll(items: seq<Piece>, between: seq<Chunk>, names: Names): seq<Chunk> {
    if items == [] then []
    else if |items| == 1 then Said(items[0], names)
    else Said(items[0], names) + between + SaidAll(items[1..], between, names)
  }

  lemma FlatOfThree(a: Piece, b: Piece, c: Piece, between: seq<Chunk>)
    ensures FlatAll([a, b, c], between) == Flat(a) + between + (Flat(b) + between + Flat(c))
  {
    assert [a, b, c][1..] == [b, c] && [b, c][1..] == [c];
    assert FlatAll([c], between) == Flat(c);
    assert FlatAll([b, c], between) == Flat(b) + between + FlatAll([c], between);
  }

  lemma FlatOfFive(a: Piece, b: Piece, c: Piece, d: Piece, e: Piece, between: seq<Chunk>)
    ensures FlatAll([a, b, c, d, e], between)
         == Flat(a) + between + (Flat(b) + between + (Flat(c) + between + (Flat(d) + between + Flat(e))))
  {
    assert [a, b, c, d, e][1..] == [b, c, d, e] && [b, c, d, e][1..] == [c, d, e];
    FlatOfThree(c, d, e, between);
    assert FlatAll([b, c, d, e], between) == Flat(b) + between + FlatAll([c, d, e], between);
  }

  lemma LabelsSay(v: Value, name: Piece)
    ensures Flat(Header(v, name)) == Label(v, Flat(name)) && Flat(Anonymous(v)) == TypeLabel(v)
  {
    var between := [Code(C_IT), Text("")];
    FlatOfFive(Str("<"), Str(TypeName(v)), Str(" "), name, Str(">"), between);
    FlatOfThree(Str("<"), Str(TypeName(v)), Str(">"), between);
  }

  lemma DefinitionSays(header: Piece, def: Piece)
    ensures Flat(Bare([header, IS, def]))
         == Flat(header) + [Text(" "), Code(C_DI), Text("is"), Code(C_E), Text(" ")] + Flat(def)
  {
    FlatOfThree(header, IS, def, [Text(" ")]);
    assert FlatAll([Str("is")], [Code(C_DI), Text(" ")]) == Flat(Str("is"));
    assert Flat(IS) == [Code(C_DI), Text("is"), Code(C_E)];
  }

  /** The cleaned tree says what the tree says with names for ids: nothing else is changed, dropped or added. */
  lemma {:induction false} CleanSays(p: Piece, names: Names)
    ensures Flat(Cleaned(p, names)) == Said(p, names)
  {
    match p
    case Str(_) =>
    case Seq(items, colors, sep, _) =>
      var between := Text(if sep.Some? then sep.value else " ");
      AllCleanSay(items, if colors.None? then [between] else [Code(colors.value), between], names);
    case Frame(items, br) => AllCleanSay(items, [Text(br.sep), Text(" ")], names);
    case Ref(id) =>
      if id in names {
        LabelsSay(id, names[id]);
      } else {
        LabelsSay(id, p);
      }
    case Def(id, d) =>
      CleanSays(d, names);
      if id in names {
        LabelsSay(id, names[id]);
        DefinitionSays(Header(id, names[id]), Cleaned(d, names));
      }
  }

  lemma {:induction false} AllCleanSay(items: seq<Piece>, between: seq<Chunk>, names: Names)
    ensures FlatAll(AllCleaned(items, names), between) == SaidAll(items, between, names)
  {
    if items != [] {
      CleanSays(items[0], names);
      AllCleanSay(items[1..], between, names);
      assert AllCleaned(items, names)[1..] == AllCleaned(items[1..], names);
    }
  }
}
