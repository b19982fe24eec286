/** Names for values that occur more than once. */
module Namers {
  import opened Pieces

  const NAMES := [
    "Cherry", "Apple", "Lemon", "Blueberry", "Jam", "Cream", "Rhubarb", "Lime", "Butter", "Grape",
    "Pomegranate", "Sugar", "Cinnamon", "Avocado", "Honey"
  ]

  const NAME_COUNT := 15
  const COLOR_COUNT := 6

  const NAME_COLORS := [C_R, C_G, C_Y, C_B, C_M, C_C]

  /** `tostring` of a natural number. */
  function Decimal(n: nat): string {
    var digit := [("0123456789")[n % 10]];
    if n < 10 then digit else Decimal(n / 10) + digit
  }

  function Suffixed(name: string, suffix: nat): string {
    if suffix > 1 then name + " " + Decimal(suffix) else name
  }

  /** The name given on call number `k`, counting from 0, in closed form. */
  function NthText(k: nat): string {
    Suffixed(NAMES[k % NAME_COUNT], k / NAME_COUNT + 1)
  }

  function NthName(k: nat): Piece {
    Colored(NthText(k), C_UN + NAME_COLORS[k % COLOR_COUNT])
  }

  /** The closure made by `new_namer`, with its three counters. */
  class Namer {
    var index: nat
    var suffix: nat
    var colorIndex: nat

    ghost predicate Valid()
      reads this
    {
      1 <= index <= NAME_COUNT && 1 <= suffix && colorIndex == Calls() % COLOR_COUNT + 1
    }

    /** How many names have been given out. */
    ghost function Calls(): int
      reads this
    {
      (suffix - 1) * NAME_COUNT + index - 1
    }

    constructor ()
      ensures Valid() && Calls() == 0
    {
      index, suffix, colorIndex := 1, 1, 1;
    }

    method Next() returns (name: Piece)
      requires Valid()
      modifies this
      ensures Valid() && Calls() == old(Calls()) + 1
      ensures old(Calls()) >= 0 && name == NthName(old(Calls()))
    {
      ghost var k: nat := Calls();
      CallNumber(suffix - 1, index - 1);
      ColorStep(k);
      assert k % NAME_COUNT == index - 1 && k / NAME_COUNT == suffix - 1;
      assert k % COLOR_COUNT == colorIndex - 1;
      var result := NAMES[index - 1];
      if suffix > 1 {
        result := result + " " + Decimal(suffix);
      }
      assert result == NthText(k);
      index := index + 1;
      if index > |NAMES| {
        index := 1;
        suffix := suffix + 1;
      }
      assert Calls() == k + 1;
      var color := NAME_COLORS[colorIndex - 1];
      colorIndex := colorIndex + 1;
      if colorIndex > |NAME_COLORS| {
        colorIndex := 1;
      }
      name := Colored(result, C_UN + color);
    }
  }

  lemma ColorStep(k: nat)
    ensures (k + 1) % COLOR_COUNT == if k % COLOR_COUNT + 1 == COLOR_COUNT then 0 else k % COLOR_COUNT + 1
  {
  }

  lemma CallNumber(q: nat, r: nat)
    requires r < NAME_COUNT
    ensures (q * NAME_COUNT + r) / NAME_COUNT == q && (q * NAME_COUNT + r) % NAME_COUNT == r
  {
  }

  // ---------------------------------------------------------------------------
  // Names are distinct, however many are given out
  // ---------------------------------------------------------------------------

  lemma {:induction false} DecimalInjective(a: nat, b: nat)
    requires Decimal(a) == Decimal(b)
    ensures a == b
  {
    var x, y := Decimal(a), Decimal(b);
    assert x[|x| - 1] == ("0123456789")[a % 10] && y[|y| - 1] == ("0123456789")[b % 10];
    assert a % 10 == b % 10;
    DecimalSize(a);
    DecimalSize(b);
    if a >= 10 && b >= 10 {
      assert x[..|x| - 1] == Decimal(a / 10) && y[..|y| - 1] == Decimal(b / 10);
      DecimalInjective(a / 10, b / 10);
    }
  }

  lemma DecimalSize(n: nat)
    ensures |Decimal(n)| >= 1 && (|Decimal(n)| == 1 <==> n < 10)
  {
  }

  /** The names are told apart by their first letter and their length. */
  lemma NamesDistinct(i: nat, j: nat)
    requires i < NAME_COUNT && j < NAME_COUNT
    requires |NAMES[i]| == |NAMES[j]| && NAMES[i][0] == NAMES[j][0]
    ensures i == j
  {
  }

  lemma NamesPlain(i: nat)
    requires i < NAME_COUNT
    ensures NAMES[i] != "" && ' ' !in NAMES[i] && '\n' !in NAMES[i]
  {
  }

  /** Text up to the first space, and from it on, are determined by the whole. */
  lemma FirstSpace(a: string, x: string, b: string, y: string)
    requires ' ' !in a && ' ' !in b
    requires x == "" || x[0] == ' '
    requires y == "" || y[0] == ' '
    requires a + x == b + y
    ensures a == b && x == y
  {
    if |a| <= |b| {
      Prefix(a, x, b, y);
    } else {
      Prefix(b, y, a, x);
    }
  }

  lemma Prefix(a: string, x: string, b: string, y: string)
    requires a + x == b + y && |a| <= |b|
    ensures b == a + b[|a|..] && x == b[|a|..] + y
  {
    assert a == (a + x)[..|a|] == b[..|a|];
    assert x == (a + x)[|a|..] == b[|a|..] + y;
  }

  lemma SuffixedInjective(a: string, i: nat, b: string, j: nat)
    requires ' ' !in a && ' ' !in b && i >= 1 && j >= 1
    requires Suffixed(a, i) == Suffixed(b, j)
    ensures a == b && i == j
  {
    var x := if i > 1 then " " + Decimal(i) else "";
    var y := if j > 1 then " " + Decimal(j) else "";
    assert Suffixed(a, i) == a + x && Suffixed(b, j) == b + y;
    FirstSpace(a, x, b, y);
    if i > 1 {
      assert Decimal(i) == x[1..] && Decimal(j) == y[1..];
      DecimalInjective(i, j);
    }
  }

  /** The list of names is gone through over and over, with the number of the round from the second one on. */
  lemma NameAt(i: nat, round: nat)
    requires i < NAME_COUNT
    ensures NthText(round * NAME_COUNT + i) == if round == 0 then NAMES[i] else NAMES[i] + " " + Decimal(round + 1)
  {
    CallNumber(round, i);
  }

  /** The colours are gone through over and over as well. */
  lemma ColourAt(i: nat, round: nat)
    requires i < COLOR_COUNT
    ensures NthName(round * COLOR_COUNT + i).colors.Some?
    ensures NthName(round * COLOR_COUNT + i).colors.value == C_UN + NAME_COLORS[i]
  {
    assert (round * COLOR_COUNT + i) % COLOR_COUNT == i;
  }

  lemma DivMod(k: nat, n: nat)
    requires n > 0
    ensures k == k / n * n + k % n
  {
  }

  /** Different calls give different names, for any number of calls. */
  lemma NamesInjective(j: nat, k: nat)
    requires NthName(j) == NthName(k)
    ensures j == k
  {
    assert NthName(j).items[0].text == NthName(k).items[0].text;
    NamesPlain(j % NAME_COUNT);
    NamesPlain(k % NAME_COUNT);
    SuffixedInjective(NAMES[j % NAME_COUNT], j / NAME_COUNT + 1, NAMES[k % NAME_COUNT], k / NAME_COUNT + 1);
    NamesDistinct(j % NAME_COUNT, k % NAME_COUNT);
    DivMod(j, NAME_COUNT);
    DivMod(k, NAME_COUNT);
  }
}
