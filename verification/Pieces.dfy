/** Lua values as the printer sees them, and the piece trees it turns them into. */
module Pieces {
  import opened Prelude

  /**
   * A Lua value. Tables, functions and other reference types are identified by address.
   * A number is its representation together with the text `tostring` gives it, which different
   * numbers can share; `Other` covers the remaining types that can occur in a table, carrying what
   * `tostring` answers for the object.
   */
  datatype Value =
    | Bool(b: bool)
    | Number(bits: nat, text: string)
    | String(s: string)
    | Table(addr: nat)
    | Function(addr: nat)
    | Other(kind: Kind, addr: nat, shown: string)

  datatype Kind = Userdata | Thread | Cdata

  /** What a table holds: the answer of `getmetatable` and the pairs in the order `pairs` visits them. */
  datatype Object = Object(meta: Option<Value>, entries: seq<(Value, Value)>)

  type Heap = map<nat, Object>

  /** The answer of Lua's `type`. */
  function TypeName(v: Value): string {
    match v
    case Bool(_) => "boolean"
    case Number(_, _) => "number"
    case String(_) => "string"
    case Table(_) => "table"
    case Function(_) => "function"
    case Other(Userdata, _, _) => "userdata"
    case Other(Thread, _, _) => "thread"
    case Other(Cdata, _, _) => "cdata"
  }

  /**
   * Pieces: strings, sequences, frames, and the two forms of a node with an `id` field,
   * with and without a `def`.
   */
  datatype Piece =
    | Str(text: string)
    | Seq(items: seq<Piece>, colors: Option<string>, sep: Option<string>, tight: bool)
    | Frame(items: seq<Piece>, bracket: Bracket)
    | Ref(id: Value)
    | Def(id: Value, def: Piece)

  datatype Bracket = Bracket(open: Piece, sep: string, close: Piece)

  const C_E := "\U{1B}[0m"
  const C_BR := "\U{1B}[1m"
  const C_DI := "\U{1B}[2m"
  const C_IT := "\U{1B}[3m"
  const C_UN := "\U{1B}[4m"
  const C_R := "\U{1B}[31m"
  const C_G := "\U{1B}[32m"
  const C_Y := "\U{1B}[33m"
  const C_B := "\U{1B}[34m"
  const C_M := "\U{1B}[35m"
  const C_C := "\U{1B}[36m"

  const INDENT := "   "
  const INDENT_LEN := 3
  const SEP := " "
  const STR_HALF := 30
  const MAX_STR_LEN := 60

  /** A one-string sequence with a colour. */
  function Colored(text: string, colors: string): Piece {
    Seq([Str(text)], Some(colors), None, false)
  }

  /** A sequence with no options. */
  function Bare(items: seq<Piece>): Piece {
    Seq(items, None, None, false)
  }

  const BRACKETS := Bracket(Colored("{", C_BR), ",", Colored("}", C_BR))
  const METATABLE := Colored("<metatable>", C_IT + C_Y)
  const EQ := Colored("=", C_DI)
  const IS := Colored("is", C_DI)
}
