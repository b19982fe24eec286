/** The printer as it runs: one context object, updated in place by all three stages. */
module Printer {
  import opened Pieces
  import opened Namers
  import opened Translate
  import Clean
  import Layout

  lemma {:induction false} SizeAt(items: seq<Piece>, i: nat)
    requires i < |items|
    ensures Layout.Size(items[i]) < Layout.Sizes(items)
  {
    if i > 0 {
      SizeAt(items[1..], i - 1);
    }
  }

  lemma {:induction false} SuffixEntries(es: seq<(Value, Value)>, i: nat)
    requires i < |es|
    ensures Entries(es[i..]) == [Entry(es[i].0, es[i].1)] + Entries(es[i + 1..])
  {
    assert es[i..][1..] == es[i + 1..];
  }

  lemma NatProduct(a: nat, b: nat)
    ensures a * b >= 0
  {
  }

  method MinLen(piece: Piece) returns (n: nat)
    ensures n == Layout.MinLen(piece)
    decreases Layout.Size(piece)
  {
    if piece.Str? {
      return |piece.text|;
    } else if piece.Ref? || piece.Def? {
      return 0;
    }
    var items := piece.items;
    if piece.Frame? {
      var open := MinLen(piece.bracket.open);
      var close := MinLen(piece.bracket.close);
      if |items| == 0 {
        return open + close;
      }
      NatProduct(|items| - 1, |piece.bracket.sep| + 1);
      n := open + close + 2 + (|items| - 1) * (|piece.bracket.sep| + 1);
    } else {
      if |items| == 0 {
        return 0;
      }
      NatProduct(|items| - 1, |Layout.SepOf(piece.sep)|);
      n := (|items| - 1) * |Layout.SepOf(piece.sep)|;
    }
    assert items[0..] == items;
    for i := 0 to |items|
      invariant n + Layout.MinLens(items[i..]) == Layout.MinLen(piece)
    {
      SizeAt(items, i);
      var child := MinLen(items[i]);
      assert items[i..][1..] == items[i + 1..];
      n := n + child;
    }
  }

  /** The second pass. Children are replaced one at a time, in place. */
  method CleanPiece(piece: Piece, named: map<Value, Piece>) returns (r: Piece)
    ensures r == Clean.Cleaned(piece, named)
    decreases piece
  {
    match piece
    case Str(_) =>
      r := piece;
    case Ref(id) =>
      if id == Bool(false) {
        r := Bare([]);
      } else if id in named {
        r := Clean.Header(id, named[id]);
      } else {
        r := Clean.Anonymous(id);
      }
    case Def(id, d) =>
      if id == Bool(false) {
        r := Bare([]);
      } else {
        var def := CleanPiece(d, named);
        r := if id in named then Bare([Clean.Header(id, named[id]), IS, def]) else def;
      }
    case Frame(items, bracket) =>
      var children := CleanChildren(items, named);
      r := Frame(children, bracket);
    case Seq(items, colors, sep, tight) =>
      var children := CleanChildren(items, named);
      r := Seq(children, colors, sep, tight);
  }

  method CleanChildren(items: seq<Piece>, named: map<Value, Piece>) returns (r: seq<Piece>)
    ensures r == Clean.AllCleaned(items, named)
    decreases items
  {
    r := items;
    for i := 0 to |items|
      invariant |r| == |items|
      invariant forall j | 0 <= j < i :: r[j] == Clean.Cleaned(items[j], named)
      invariant forall j | i <= j < |items| :: r[j] == items[j]
    {
      assert r[i] == items[i];
      var child := CleanPiece(r[i], named);
      r := r[i := child];
    }
  }

  class Context {
    var occur: set<Value>
    var named: map<Value, Piece>
    const nextName: Namer
    var prevIndent: string
    var nextIndent: string
    var lineLen: nat
    var maxWidth: int
    var result: seq<Layout.Chunk>

    ghost predicate Valid()
      reads this, nextName
    {
      nextName.Valid()
    }

    ghost function SeenSoFar(): Seen
      requires Valid()
      reads this, nextName
    {
      Seen(occur, named, nextName.Calls())
    }

    ghost function Written(): Layout.Page
      reads this
    {
      Layout.Page(result, lineLen)
    }

    ghost function Settings(): Layout.Margins
      reads this
    {
      Layout.Margins(prevIndent, nextIndent, maxWidth)
    }

    constructor ()
      ensures Valid() && fresh(nextName)
      ensures SeenSoFar() == NOTHING
      ensures Written() == Layout.Page([], 0)
      ensures Settings() == Layout.Margins("", INDENT, 78) && Layout.Indented(Settings())
    {
      occur, named := {}, map[];
      nextName := new Namer();
      prevIndent, nextIndent, lineLen, maxWidth := "", INDENT, 0, 78;
      result := [];
    }

    // -------------------------------------------------------------------------
    // Translating
    // -------------------------------------------------------------------------

    /** Give the value a name if it does not have one already. */
    method GiveName(val: Value)
      requires Valid() && val in occur
      modifies this`named, nextName
      ensures Valid() && SeenSoFar() == Touch(val, old(SeenSoFar()))
    {
      if val !in named {
        var name := nextName.Next();
        named := named[val := name];
      }
    }

    method TranslateValue(h: Heap, val: Value) returns (piece: Piece)
      requires Valid() && Closed(h) && Exists(h, val)
      modifies this`occur, this`named, nextName
      ensures Valid() && (piece, SeenSoFar()) == Walk(h, val, old(SeenSoFar()))
      decreases |Unmet(h, SeenSoFar())|, 1
    {
      match val
      case String(s) => piece := StringPiece(s);
      case Number(_, text) => piece := NumberPiece(text);
      case Function(_) =>
        if val in occur {
          GiveName(val);
        } else {
          occur := occur + {val};
        }
        piece := Ref(val);
      case Table(_) => piece := TranslateTable(h, val);
      case Bool(_) => piece := TranslateDefault(h, val);
      case Other(_, _, _) => piece := TranslateDefault(h, val);
    }

    method TranslateDefault(h: Heap, val: Value) returns (piece: Piece)
      requires Valid() && Closed(h) && (val.Bool? || val.Other?)
      modifies this`occur, this`named, nextName
      ensures Valid() && (piece, SeenSoFar()) == Walk(h, val, old(SeenSoFar()))
      decreases |Unmet(h, SeenSoFar())|, 0
    {
      if val in occur {
        GiveName(val);
        piece := Ref(val);
      } else {
        occur := occur + {val};
        piece := Def(val, Str(ToString(val)));
      }
    }

    method TranslateTable(h: Heap, val: Value) returns (piece: Piece)
      requires Valid() && Closed(h) && Exists(h, val) && val.Table?
      modifies this`occur, this`named, nextName
      ensures Valid() && (piece, SeenSoFar()) == Walk(h, val, old(SeenSoFar()))
      decreases |Unmet(h, SeenSoFar())|, 0
    {
      if val in occur {
        GiveName(val);
        return Ref(val);
      }
      ghost var before := SeenSoFar();
      TouchShrinks(h, val, before);
      occur := occur + {val};
      ghost var first, rows := SeenSoFar(), Rows(h[val.addr]);
      var items: seq<Piece> := [];
      var meta, entries := h[val.addr].meta, h[val.addr].entries;
      ContinueEnds([], h, rows, first);
      if Truthy(meta) {
        assert rows[0] == Meta(meta.value) && rows[0] in rows && rows[1..] == Entries(entries);
        var mt := TranslateValue(h, meta.value);
        ContinueStep([], h, rows, first);
        items := items + [Bare([METATABLE, EQ, mt])];
      } else {
        assert rows == Entries(entries);
      }
      assert entries[0..] == entries;
      for i := 0 to |entries|
        invariant Valid() && first.occur <= occur
        invariant forall row | row in Entries(entries[i..]) :: RowExists(h, row)
        invariant Continue(items, h, Entries(entries[i..]), SeenSoFar()) == WalkRows(h, rows, first)
      {
        SuffixEntries(entries, i);
        ghost var suffix, now := Entries(entries[i..]), SeenSoFar();
        assert suffix[0] in suffix && suffix[1..] == Entries(entries[i + 1..]);
        UnmetShrinks(h, first, now);
        ContinueStep(items, h, suffix, now);
        var (k, v) := entries[i];
        var key: Piece;
        if IdentFriendly(k) {
          key := KeyPiece(k.s);
        } else {
          key := TranslateValue(h, k);
        }
        UnmetShrinks(h, first, SeenSoFar());
        var value := TranslateValue(h, v);
        items := items + [Bare([key, EQ, value])];
      }
      ContinueEnds(items, h, [], SeenSoFar());
      assert entries[|entries|..] == [];
      piece := Def(val, Frame(items, BRACKETS));
    }

    // -------------------------------------------------------------------------
    // Displaying
    // -------------------------------------------------------------------------

    method Write(str: string)
      modifies this`result, this`lineLen
      ensures Written() == Layout.Write(old(Written()), str)
    {
      result := result + [Layout.Text(str)];
      lineLen := lineLen + |str|;
    }

    method WriteNoLength(str: string)
      modifies this`result
      ensures Written() == Layout.WriteCode(old(Written()), str)
    {
      result := result + [Layout.Code(str)];
    }

    method NewlineNoIndent()
      modifies this`result, this`lineLen
      ensures Written() == Layout.NewlineNoIndent(old(Written()))
    {
      result := result + [Layout.Text("\n")];
      lineLen := 0;
    }

    method Newline()
      modifies this`result, this`lineLen
      ensures Written() == Layout.Newline(Settings(), old(Written()))
    {
      result := result + [Layout.Text("\n")];
      lineLen := 0;
      Write(nextIndent);
    }

    /** The length of the longest text that, written here, ends within the page. */
    function SpaceHere(): (n: nat)
      reads this
      ensures forall len: nat | len > 0 :: Layout.EndsWithin(len, lineLen, maxWidth) <==> len <= n
      ensures n == Layout.SpaceHere(Settings(), Written())
    {
      if maxWidth - lineLen > 0 then maxWidth - lineLen else 0
    }

    /** The same on a fresh line. */
    function SpaceNewline(): (n: nat)
      reads this
      ensures forall len: nat | len > 0 :: Layout.EndsWithin(len, |nextIndent|, maxWidth) <==> len <= n
      ensures n == Layout.SpaceNewline(Settings())
    {
      if maxWidth - |nextIndent| > 0 then maxWidth - |nextIndent| else 0
    }

    /** Every call finds the indents one step apart, and leaves them as they were. */
    method Display(piece: Piece)
      requires Layout.Indented(Settings())
      modifies this`result, this`lineLen, this`prevIndent, this`nextIndent
      ensures Written() == Layout.Display(piece, old(Settings()), old(Written()))
      ensures Settings() == old(Settings())
      decreases Layout.Size(piece), 3
    {
      match piece
      case Str(s) => DisplayString(s);
      case Frame(_, _) => DisplayFrame(piece);
      case Seq(_, _, _, _) => DisplaySequence(piece);
      case Ref(_) =>
      case Def(_, _) =>
    }

    method DisplayString(s: string)
      modifies this`result, this`lineLen
      ensures Written() == Layout.Display(Str(s), old(Settings()), old(Written()))
    {
      var ml := MinLen(Str(s));
      if ml > SpaceHere() && ml <= SpaceNewline() {
        Newline();
      }
      Write(s);
    }

    method DisplayFrame(frame: Piece)
      requires Layout.Indented(Settings())
      requires frame.Frame?
      modifies this`result, this`lineLen, this`prevIndent, this`nextIndent
      ensures Written() == Layout.Display(frame, old(Settings()), old(Written()))
      ensures Settings() == old(Settings())
      decreases Layout.Size(frame), 2
    {
      if |frame.items| == 0 {
        Layout.EmptyIsSmaller(frame.bracket);
        assert frame == Frame([], frame.bracket);
        Display(Layout.Empty(frame.bracket));
        return;
      }
      var ml := MinLen(frame);
      if ml <= SpaceHere() {
        DisplayFrameShort(frame);
      } else if ml <= SpaceNewline() {
        Newline();
        DisplayFrameShort(frame);
      } else {
        DisplayFrameLong(frame);
      }
    }

    method DisplayFrameShort(frame: Piece)
      requires Layout.Indented(Settings())
      requires frame.Frame? && frame.items != []
      modifies this`result, this`lineLen, this`prevIndent, this`nextIndent
      ensures Written() == Layout.Short(frame, old(Settings()), old(Written()))
      ensures Settings() == old(Settings())
      decreases Layout.Size(frame), 1
    {
      var items, bracket := frame.items, frame.bracket;
      ghost var m, gap := Settings(), Layout.FrameGap(bracket.sep);
      Display(bracket.open);
      Write(" ");
      SizeAt(items, 0);
      Display(items[0]);
      ghost var first := Written();
      for i := 1 to |items|
        invariant Settings() == m
        invariant Layout.More(items[i..], gap, m, Written()) == Layout.More(items[1..], gap, m, first)
      {
        SizeAt(items, i);
        assert items[i..][1..] == items[i + 1..];
        Write(bracket.sep);
        Write(" ");
        Display(items[i]);
      }
      Write(" ");
      Display(bracket.close);
    }

    method DisplayFrameLong(frame: Piece)
      requires Layout.Indented(Settings())
      requires frame.Frame? && frame.items != []
      modifies this`result, this`lineLen, this`prevIndent, this`nextIndent
      ensures Written() == Layout.Long(frame, old(Settings()), old(Written()))
      ensures Settings() == old(Settings())
      decreases Layout.Size(frame), 1
    {
      var items, bracket := frame.items, frame.bracket;
      var oldOldIndent, oldIndent := prevIndent, nextIndent;
      ghost var inner := Layout.Inner(Settings());
      Display(bracket.open);
      ghost var open := Written();
      prevIndent, nextIndent := oldIndent, oldIndent + INDENT;
      assert items[0..] == items;
      for i := 0 to |items| - 1
        invariant Settings() == inner
        invariant Layout.Lines(items[i..], bracket.sep, inner, Written())
               == Layout.Lines(items, bracket.sep, inner, open)
      {
        SizeAt(items, i);
        assert items[i..][1..] == items[i + 1..];
        NewlineNoIndent();
        Write(oldIndent);
        Display(items[i]);
        Write(bracket.sep);
      }
      SizeAt(items, |items| - 1);
      NewlineNoIndent();
      Write(oldIndent);
      Display(items[|items| - 1]);
      NewlineNoIndent();
      Write(oldOldIndent);
      Display(bracket.close);
      prevIndent, nextIndent := oldOldIndent, oldIndent;
    }

    method DisplaySequence(piece: Piece)
      requires Layout.Indented(Settings())
      requires piece.Seq?
      modifies this`result, this`lineLen, this`prevIndent, this`nextIndent
      ensures Written() == Layout.Display(piece, old(Settings()), old(Written()))
      ensures Settings() == old(Settings())
      decreases Layout.Size(piece), 2
    {
      var items, colors := piece.items, piece.colors;
      if |items| > 0 {
        if piece.tight {
          var ml := MinLen(piece);
          if ml > SpaceHere() && ml <= SpaceNewline() {
            Newline();
          }
        }
        ghost var m, gap := Settings(), Layout.SeqGap(colors, Layout.SepOf(piece.sep));
        if colors.Some? {
          WriteNoLength(colors.value);
        }
        SizeAt(items, 0);
        Display(items[0]);
        ghost var first := Written();
        for i := 1 to |items|
          invariant Settings() == m
          invariant Layout.More(items[i..], gap, m, Written()) == Layout.More(items[1..], gap, m, first)
        {
          SizeAt(items, i);
          assert items[i..][1..] == items[i + 1..];
          if colors.Some? {
            WriteNoLength(colors.value);
          }
          Write(Layout.SepOf(piece.sep));
          Display(items[i]);
        }
        if colors.Some? {
          WriteNoLength(C_E);
        }
      }
    }
  }
}
