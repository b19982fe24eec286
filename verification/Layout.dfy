/**
 * What the layout engine writes, as functions of the piece, the indentation and the column.
 * The methods of `Printer.Context` are proved to compute exactly this.
 */
module Layout {
  import opened Prelude
  import opened Pieces

  /** One append to the result: text, which takes up columns, or a colour code, which does not. */
  datatype Chunk = Text(s: string) | Code(s: string)

  /** What has been written so far, and `line_len`. */
  datatype Page = Page(out: seq<Chunk>, col: nat)

  /** The layout settings in force: the two indents and the page width. */
  datatype Margins = Margins(prev: string, next: string, width: int)

  /** The indents are one step apart. */
  predicate Indented(m: Margins) {
    m.next == m.prev + INDENT
  }

  /** A text of this length, written at this column, ends within the page. */
  predicate EndsWithin(len: nat, col: nat, width: int) {
    col + len <= width
  }

  /** What stands between two children: colours and a separator, or a frame's separator and a space. */
  datatype Gap = SeqGap(colors: Option<string>, sep: string) | FrameGap(sep: string)

  function Write(st: Page, s: string): Page {
    Page(st.out + [Text(s)], st.col + |s|)
  }

  function WriteCode(st: Page, code: string): Page {
    Page(st.out + [Code(code)], st.col)
  }

  function NewlineNoIndent(st: Page): Page {
    Page(st.out + [Text("\n")], 0)
  }

  function Newline(m: Margins, st: Page): Page {
    Write(NewlineNoIndent(st), m.next)
  }

  function Paint(colors: Option<string>, st: Page): Page {
    if colors.Some? then WriteCode(st, colors.value) else st
  }

  function Reset(colors: Option<string>, st: Page): Page {
    if colors.Some? then WriteCode(st, C_E) else st
  }

  function WriteGap(gap: Gap, st: Page): Page {
    match gap
    case SeqGap(colors, sep) => Write(Paint(colors, st), sep)
    case FrameGap(sep) => Write(Write(st, sep), " ")
  }

  function GapLen(gap: Gap): nat {
    match gap
    case SeqGap(_, sep) => |sep|
    case FrameGap(sep) => |sep| + 1
  }

  function SpaceHere(m: Margins, st: Page): nat {
    if m.width > st.col then m.width - st.col else 0
  }

  function SpaceNewline(m: Margins): nat {
    if m.width > |m.next| then m.width - |m.next| else 0
  }

  /** The termination measure of the printer: the empty frame outweighs the sequence written for it. */
  function Size(p: Piece): nat {
    match p
    case Str(_) => 1
    case Seq(items, _, _, _) => 1 + Sizes(items)
    case Frame(items, br) => 4 + Size(br.open) + Size(br.close) + Sizes(items)
    case Ref(_) => 1
    case Def(_, _) => 1
  }

  function Sizes(items: seq<Piece>): (n: nat)
    ensures items != [] ==> Size(items[0]) < n && Sizes(items[1..]) < n
  {
    if items == [] then 0 else 1 + Size(items[0]) + Sizes(items[1..])
  }

  function SepOf(sep: Option<string>): string {
    if sep.Some? then sep.value else SEP
  }

  /** The length of a piece written on one line. */
  function MinLen(p: Piece): nat {
    match p
    case Str(s) => |s|
    case Seq(items, _, sep, _) =>
      if items == [] then 0 else (|items| - 1) * |SepOf(sep)| + MinLens(items)
    case Frame(items, br) =>
      if items == [] then MinLen(br.open) + MinLen(br.close)
      else MinLen(br.open) + MinLen(br.close) + 2 + (|items| - 1) * (|br.sep| + 1) + MinLens(items)
    case Ref(_) => 0
    case Def(_, _) => 0
  }

  function MinLens(items: seq<Piece>): nat {
    if items == [] then 0 else MinLen(items[0]) + MinLens(items[1..])
  }

  /** The empty frame is written as this sequence. */
  function Empty(br: Bracket): Piece {
    Seq([br.open, br.close], None, Some(""), true)
  }

  lemma EmptyIsSmaller(br: Bracket)
    ensures Size(Empty(br)) < Size(Frame([], br))
  {
    var close := [br.close];
    assert [br.open, br.close][1..] == close;
    assert close[1..] == [];
    assert Sizes(close) == 1 + Size(br.close) + Sizes([]);
    assert Sizes([br.open, br.close]) == 1 + Size(br.open) + Sizes(close);
  }

  /** The line break made when the text does not fit here but would fit on the next line. */
  function Break(ml: nat, m: Margins, st: Page): Page {
    if ml > SpaceHere(m, st) && ml <= SpaceNewline(m) then Newline(m, st) else st
  }

  function Display(p: Piece, m: Margins, st: Page): Page
    decreases Size(p), 2
  {
    match p
    case Str(s) => Write(Break(|s|, m, st), s)
    case Frame(items, br) =>
      if items == [] then
        EmptyIsSmaller(br);
        Display(Empty(br), m, st)
      else if MinLen(p) <= SpaceHere(m, st) then Short(p, m, st)
      else if MinLen(p) <= SpaceNewline(m) then Short(p, m, Newline(m, st))
      else Long(p, m, st)
    case Seq(items, _, _, tight) =>
      if items == [] then st
      else if tight then Sequence(p, m, Break(MinLen(p), m, st))
      else Sequence(p, m, st)
    case Ref(_) => st
    case Def(_, _) => st
  }

  function Sequence(p: Piece, m: Margins, st: Page): Page
    requires p.Seq? && p.items != []
    decreases Size(p), 1
  {
    var first := Display(p.items[0], m, Paint(p.colors, st));
    Reset(p.colors, More(p.items[1..], SeqGap(p.colors, SepOf(p.sep)), m, first))
  }

  /** The remaining children, each after the same gap. */
  function More(items: seq<Piece>, gap: Gap, m: Margins, st: Page): Page
    decreases Sizes(items), 1
  {
    if items == [] then st
    else More(items[1..], gap, m, Display(items[0], m, WriteGap(gap, st)))
  }

  /** A frame on one line. */
  function Short(p: Piece, m: Margins, st: Page): Page
    requires p.Frame? && p.items != []
    decreases Size(p), 1
  {
    var first := Display(p.items[0], m, Write(Display(p.bracket.open, m, st), " "));
    var rest := More(p.items[1..], FrameGap(p.bracket.sep), m, first);
    Display(p.bracket.close, m, Write(rest, " "))
  }

  /** The margins of a long frame's lines, one step further in. */
  function Inner(m: Margins): (inner: Margins)
    ensures Indented(inner)
  {
    Margins(m.next, m.next + INDENT, m.width)
  }

  /** A frame with one child per line. */
  function Long(p: Piece, m: Margins, st: Page): Page
    requires p.Frame? && p.items != []
    decreases Size(p), 1
  {
    var body := Lines(p.items, p.bracket.sep, Inner(m), Display(p.bracket.open, m, st));
    Display(p.bracket.close, Inner(m), Write(NewlineNoIndent(body), m.prev))
  }

  /** The children of a long frame: each on its own line, all but the last followed by the separator. */
  function Lines(items: seq<Piece>, sep: string, inner: Margins, st: Page): Page
    decreases Sizes(items), 1
  {
    if items == [] then st
    else
      var child := Display(items[0], inner, Write(NewlineNoIndent(st), inner.prev));
      if |items| == 1 then child else Lines(items[1..], sep, inner, Write(child, sep))
  }
}
