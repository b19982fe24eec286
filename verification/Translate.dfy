/**
 * What translating a value produces, as functions of the heap, the value and what has been seen so far.
 * The methods of `Printer.Context` are proved to compute exactly this.
 */
module Translate {
  import opened Prelude
  import opened Pieces
  import opened Namers

  // ---------------------------------------------------------------------------
  // Leaves
  // ---------------------------------------------------------------------------

  predicate IsDigit(c: char) {
    '0' <= c <= '9'
  }

  function Digit(n: nat): char
    requires n < 10
  {
    ("0123456789")[n]
  }

  /** The characters that are written as numbers: control characters other than the newline. */
  predicate IsControl(c: char) {
    (c < ' ' && c != '\n') || c == '\U{7F}'
  }

  /** The number of a control character, with leading zeros if a digit follows it. */
  function Numeral(c: char, rest: string): string
    requires IsControl(c)
  {
    var n := c as int;
    if n >= 100 || (rest != "" && IsDigit(rest[0])) then [Digit(n / 100), Digit(n / 10 % 10), Digit(n % 10)]
    else if n >= 10 then [Digit(n / 10), Digit(n % 10)]
    else [Digit(n)]
  }

  /** What LuaJIT's `%q` makes of a character, once a raw newline has been replaced by the letter n. */
  function Escape(c: char, rest: string): string {
    if c == '"' || c == '\\' then ['\\', c]
    else if c == '\n' then "\\n"
    else if IsControl(c) then ['\\'] + Numeral(c, rest)
    else [c]
  }

  function EscapeAll(s: string): string {
    if s == "" then "" else Escape(s[0], s[1..]) + EscapeAll(s[1..])
  }

  function Quote(s: string): string {
    "\"" + EscapeAll(s) + "\""
  }

  /** A short string in full; of a long one only the start and the end. */
  function StringPiece(s: string): Piece {
    if |s| <= MAX_STR_LEN then Colored(Quote(s), C_G)
    else
      Seq([Str(Quote(s[..STR_HALF])), Colored("...", C_DI), Str(Quote(s[|s| - STR_HALF..]))],
          Some(C_G), Some(""), true)
  }

  function NumberPiece(text: string): Piece {
    Colored(text, C_M + C_BR)
  }

  function KeyPiece(s: string): Piece {
    Colored(s, C_M)
  }

  predicate IsAlpha(c: char) {
    'a' <= c <= 'z' || 'A' <= c <= 'Z'
  }

  const RESERVED := {
    "and", "break", "do", "else", "elseif", "end", "false", "for", "function", "goto", "if", "in", "local",
    "nil", "not", "or", "repeat", "return", "then", "true", "until", "while"
  }

  /** A string that can be written as a Lua name without quotes. */
  predicate IdentFriendly(v: Value) {
    v.String? && v.s != "" && (v.s[0] == '_' || IsAlpha(v.s[0]))
    && (forall i | 0 < i < |v.s| :: v.s[i] == '_' || IsAlpha(v.s[i]) || IsDigit(v.s[i]))
    && v.s !in RESERVED
  }

  /** `tostring`, where the default translation uses it. */
  function ToString(v: Value): string {
    match v
    case Bool(b) => if b then "true" else "false"
    case Other(_, _, shown) => shown
    case _ => ""
  }

  // ---------------------------------------------------------------------------
  // The walk
  // ---------------------------------------------------------------------------

  /** The values met so far, the names given so far, and how many names that is. */
  datatype Seen = Seen(occur: set<Value>, named: map<Value, Piece>, calls: nat)

  const NOTHING := Seen({}, map[], 0)

  /** Meeting a value: the first time it is recorded, the second time it gets a name. */
  function Touch(v: Value, st: Seen): Seen {
    if v !in st.occur then st.(occur := st.occur + {v})
    else if v in st.named then st
    else Seen(st.occur, st.named[v := NthName(st.calls)], st.calls + 1)
  }

  /** One line of a table: its metatable, or a key with its value. */
  datatype Row = Meta(val: Value) | Entry(key: Value, val: Value)

  function Truthy(v: Option<Value>): bool {
    v.Some? && v.value != Bool(false)
  }

  function Entries(es: seq<(Value, Value)>): seq<Row> {
    if es == [] then [] else [Entry(es[0].0, es[0].1)] + Entries(es[1..])
  }

  function Rows(o: Object): seq<Row> {
    (if Truthy(o.meta) then [Meta(o.meta.value)] else []) + Entries(o.entries)
  }

  /** Every table mentioned exists. */
  predicate Exists(h: Heap, v: Value) {
    v.Table? ==> v.addr in h
  }

  predicate RowExists(h: Heap, row: Row) {
    Exists(h, row.val) && (row.Entry? ==> Exists(h, row.key))
  }

  predicate Closed(h: Heap) {
    forall a | a in h :: forall row | row in Rows(h[a]) :: RowExists(h, row)
  }

  /** The tables not met so far: what bounds the walk. */
  function Unmet(h: Heap, st: Seen): set<nat> {
    set a | a in h && Table(a) !in st.occur
  }

  lemma UnmetShrinks(h: Heap, a: Seen, b: Seen)
    requires a.occur <= b.occur
    ensures Unmet(h, b) <= Unmet(h, a) && |Unmet(h, b)| <= |Unmet(h, a)|
  {
    Cardinality(Unmet(h, b), Unmet(h, a));
  }

  lemma TouchShrinks(h: Heap, v: Value, st: Seen)
    requires v.Table? && v.addr in h && v !in st.occur
    ensures |Unmet(h, Touch(v, st))| < |Unmet(h, st)|
  {
    assert v.addr in Unmet(h, st);
    Cardinality(Unmet(h, Touch(v, st)), Unmet(h, st) - {v.addr});
  }

  lemma {:induction false} Cardinality<T>(a: set<T>, b: set<T>)
    requires a <= b
    ensures |a| <= |b|
    decreases a
  {
    if x :| x in a {
      Cardinality(a - {x}, b - {x});
    }
  }

  function Walk(h: Heap, v: Value, st: Seen): (r: (Piece, Seen))
    requires Closed(h) && Exists(h, v)
    ensures st.occur <= r.1.occur
    decreases |Unmet(h, st)|, 0
  {
    match v
    case String(s) => (StringPiece(s), st)
    case Number(_, text) => (NumberPiece(text), st)
    case Function(_) => (Ref(v), Touch(v, st))
    case Table(a) =>
      if v in st.occur then (Ref(v), Touch(v, st))
      else
        TouchShrinks(h, v, st);
        var (items, st1) := WalkRows(h, Rows(h[a]), Touch(v, st));
        (Def(v, Frame(items, BRACKETS)), st1)
    case _ =>
      if v in st.occur then (Ref(v), Touch(v, st))
      else (Def(v, Str(ToString(v))), Touch(v, st))
  }

  function WalkKey(h: Heap, row: Row, st: Seen): (r: (Piece, Seen))
    requires Closed(h) && RowExists(h, row)
    ensures st.occur <= r.1.occur
    decreases |Unmet(h, st)|, 1
  {
    if row.Meta? then (METATABLE, st)
    else if IdentFriendly(row.key) then (KeyPiece(row.key.s), st)
    else Walk(h, row.key, st)
  }

  function WalkRow(h: Heap, row: Row, st: Seen): (r: (Piece, Seen))
    requires Closed(h) && RowExists(h, row)
    ensures st.occur <= r.1.occur
    decreases |Unmet(h, st)|, 2
  {
    var (key, st1) := WalkKey(h, row, st);
    UnmetShrinks(h, st, st1);
    var (val, st2) := Walk(h, row.val, st1);
    (Bare([key, EQ, val]), st2)
  }

  function WalkRows(h: Heap, rows: seq<Row>, st: Seen): (r: (seq<Piece>, Seen))
    requires Closed(h) && forall row | row in rows :: RowExists(h, row)
    ensures st.occur <= r.1.occur
    decreases |Unmet(h, st)|, 3 + |rows|
  {
    if rows == [] then ([], st)
    else
      var (first, st1) := WalkRow(h, rows[0], st);
      UnmetShrinks(h, st, st1);
      var (rest, st2) := WalkRows(h, rows[1..], st1);
      ([first] + rest, st2)
  }

  /** Lines already made, followed by those of the remaining rows. */
  function Continue(items: seq<Piece>, h: Heap, rows: seq<Row>, st: Seen): (seq<Piece>, Seen)
    requires Closed(h) && forall row | row in rows :: RowExists(h, row)
  {
    var (rest, st1) := WalkRows(h, rows, st);
    (items + rest, st1)
  }

  lemma ContinueEnds(items: seq<Piece>, h: Heap, rows: seq<Row>, st: Seen)
    requires Closed(h) && forall row | row in rows :: RowExists(h, row)
    ensures Continue([], h, rows, st) == WalkRows(h, rows, st)
    ensures Continue(items, h, [], st) == (items, st)
  {
    assert [] + WalkRows(h, rows, st).0 == WalkRows(h, rows, st).0;
    assert items + [] == items;
  }

  lemma ContinueStep(items: seq<Piece>, h: Heap, rows: seq<Row>, st: Seen)
    requires rows != []
    requires Closed(h) && forall row | row in rows :: RowExists(h, row)
    ensures var (line, st1) := WalkRow(h, rows[0], st);
            Continue(items, h, rows, st) == Continue(items + [line], h, rows[1..], st1)
  {
    var (line, st1) := WalkRow(h, rows[0], st);
    var rest := WalkRows(h, rows[1..], st1).0;
    assert items + ([line] + rest) == items + [line] + rest;
  }
}
