/** The part of the Lua VM the select module works with: values, the registry and the stack. */
module SelectLua {
  import opened Prelude

  /** A Lua value; a string also says which number, if any, Lua would convert it to. */
  datatype Val =
    | VNil
    | VNum(x: real)
    | VStr(text: string, number: Option<real>)
    | VTable(id: nat)
    | VData(id: nat)
    | VOther(id: nat)

  predicate IsNumber(v: Val) {
    v.VNum? || (v.VStr? && v.number.Some?)
  }

  function ToNumber(v: Val): real
    requires IsNumber(v)
  {
    if v.VNum? then v.x else v.number.value
  }

  predicate IsString(v: Val) {
    v.VStr? || v.VNum?
  }

  // ---------------------------------------------------------------------------
  // The registry and its references
  // ---------------------------------------------------------------------------

  /** The registry's array part: live references, the list of freed ones, and the highest ever used. */
  datatype Registry = Registry(live: map<nat, Val>, free: seq<nat>, top: nat)

  ghost predicate Sound(g: Registry) {
    && (forall k | k in g.live :: 1 <= k <= g.top)
    && (forall i | 0 <= i < |g.free| :: 1 <= g.free[i] <= g.top && g.free[i] !in g.live)
    && (forall i, j | 0 <= i < j < |g.free| :: g.free[i] != g.free[j])
  }

  /** `luaL_ref`: take the reference freed last, or else a new one. */
  function RefOf(g: Registry): nat {
    if g.free != [] then g.free[0] else g.top + 1
  }

  function Refer(g: Registry, v: Val): Registry {
    if g.free != [] then Registry(g.live[g.free[0] := v], g.free[1..], g.top)
    else Registry(g.live[g.top + 1 := v], g.free, g.top + 1)
  }

  /** `luaL_unref` */
  function Release(g: Registry, ref: nat): Registry {
    Registry(g.live - {ref}, [ref] + g.free, g.top)
  }

  lemma ReferSound(g: Registry, v: Val)
    requires Sound(g)
    ensures Sound(Refer(g, v)) && RefOf(g) !in g.live
    ensures Refer(g, v).live == g.live[RefOf(g) := v]
  {
  }

  lemma ReleaseSound(g: Registry, ref: nat)
    requires Sound(g) && ref in g.live
    ensures Sound(Release(g, ref))
  {
  }

  /** Releasing one reference after the other. */
  function ReleaseAll(g: Registry, refs: seq<nat>): Registry
    decreases refs
  {
    if refs == [] then g else ReleaseAll(Release(g, refs[0]), refs[1..])
  }

  predicate NoRepeats(refs: seq<nat>) {
    forall i, j | 0 <= i < j < |refs| :: refs[i] != refs[j]
  }

  lemma {:induction false} ReleaseAllSound(g: Registry, refs: seq<nat>)
    requires Sound(g) && NoRepeats(refs) && forall i | 0 <= i < |refs| :: refs[i] in g.live
    ensures Sound(ReleaseAll(g, refs))
    ensures ReleaseAll(g, refs).live == g.live - (set i | 0 <= i < |refs| :: refs[i])
    decreases refs
  {
    if refs != [] {
      ReleaseSound(g, refs[0]);
      var g1, rest := Release(g, refs[0]), refs[1..];
      assert forall i | 0 <= i < |rest| :: rest[i] == refs[i + 1];
      ReleaseAllSound(g1, rest);
      var a := set i | 0 <= i < |refs| :: refs[i];
      var b := set i | 0 <= i < |rest| :: rest[i];
      assert a == {refs[0]} + b by {
        forall x | x in a
          ensures x in {refs[0]} + b
        {
          var i :| 0 <= i < |refs| && refs[i] == x;
          if i > 0 {
            assert rest[i - 1] == x;
          }
        }
      }
      assert g1.live - b == g.live - a;
    } else {
      assert g.live - {} == g.live;
    }
  }

  // ---------------------------------------------------------------------------
  // Table traversal
  // ---------------------------------------------------------------------------

  /** A table's pairs in traversal order: keys are distinct and not nil. */
  predicate Traversable(es: seq<(Val, Val)>) {
    (forall i | 0 <= i < |es| :: es[i].0 != VNil)
    && (forall i, j | 0 <= i < j < |es| :: es[i].0 != es[j].0)
  }

  /** The position of the pair after the one with this key; nil comes before the first. */
  function After(es: seq<(Val, Val)>, key: Val): (n: nat)
    requires Traversable(es) && (key == VNil || exists i :: 0 <= i < |es| && es[i].0 == key)
    ensures n <= |es|
    ensures key == VNil ==> n == 0
    ensures key != VNil ==> 1 <= n && es[n - 1].0 == key
  {
    if key == VNil then 0
    else var i :| 0 <= i < |es| && es[i].0 == key; i + 1
  }

  // ---------------------------------------------------------------------------
  // The machine
  // ---------------------------------------------------------------------------

  type LuaTable = map<Val, Val>

  /** A Lua state: its stack, its registry, and the tables made so far. */
  class Lua {
    var stack: seq<Val>
    var registry: Registry
    var tables: map<nat, LuaTable>
    var made: nat

    constructor (registry: Registry)
      ensures stack == [] && this.registry == registry
    {
      stack, tables, made := [], map[], 0;
      this.registry := registry;
    }

    /** A function is called: it has its arguments on a stack of its own. */
    method Enter(args: seq<Val>)
      modifies this`stack
      ensures stack == args
    {
      stack := args;
    }

    method Push(v: Val)
      modifies this`stack
      ensures stack == old(stack) + [v]
    {
      stack := stack + [v];
    }

    method Pop(n: nat)
      requires n <= |stack|
      modifies this`stack
      ensures stack == old(stack)[..|old(stack)| - n]
    {
      stack := stack[..|stack| - n];
    }

    /** The value at a negative index. */
    function Top(n: nat): Val
      requires 1 <= n <= |stack|
      reads this
    {
      stack[|stack| - n]
    }

    /** `lua_next`: pop a key; push the next pair, or nothing at the end. */
    method Next(es: seq<(Val, Val)>) returns (more: bool)
      requires Traversable(es) && stack != []
      requires Top(1) == VNil || exists i :: 0 <= i < |es| && es[i].0 == Top(1)
      modifies this`stack
      ensures var n := After(es, old(Top(1)));
              var below := old(stack)[..|old(stack)| - 1];
              more == (n < |es|) && stack == below + if n < |es| then [es[n].0, es[n].1] else []
    {
      var key := stack[|stack| - 1];
      var n := After(es, key);
      stack := stack[..|stack| - 1];
      more := n < |es|;
      if more {
        stack := stack + [es[n].0, es[n].1];
      }
    }

    /** `luaL_ref`: pop a value and keep it in the registry. */
    method Ref() returns (ref: nat)
      requires stack != []
      modifies this`stack, this`registry
      ensures stack == old(stack)[..|old(stack)| - 1]
      ensures ref == RefOf(old(registry)) && registry == Refer(old(registry), old(Top(1)))
      ensures ref == if old(registry).free != [] then old(registry).free[0] else old(registry).top + 1
      ensures registry.live == old(registry).live[ref := old(Top(1))]
    {
      var v := stack[|stack| - 1];
      stack := stack[..|stack| - 1];
      ref := RefOf(registry);
      registry := Refer(registry, v);
    }

    /** `luaL_unref`; the module must hold the reference. */
    method Unref(ref: nat)
      requires ref in registry.live
      modifies this`registry
      ensures registry == Release(old(registry), ref)
    {
      registry := Release(registry, ref);
    }

    /** `lua_createtable` */
    method CreateTable() returns (id: nat)
      modifies this`stack, this`tables, this`made
      ensures id == old(made) && made == id + 1
      ensures tables == old(tables)[id := map[]]
      ensures stack == old(stack) + [VTable(id)]
    {
      id := made;
      made := made + 1;
      tables := tables[id := map[]];
      stack := stack + [VTable(id)];
    }

    /** `lua_settable`: store the value on top under the key below it, in the table at an index; pop both. */
    method SetTable(index: nat)
      requires |stack| >= 2 && index < |stack|
      requires stack[index].VTable? && stack[index].id in tables
      modifies this`stack, this`tables
      ensures var t := old(stack)[index].id;
              tables == old(tables)[t := old(tables)[t][old(Top(2)) := old(Top(1))]]
      ensures stack == old(stack)[..|old(stack)| - 2]
    {
      var t := stack[index].id;
      tables := tables[t := tables[t][Top(2) := Top(1)]];
      stack := stack[..|stack| - 2];
    }

    /** `lua_rawseti`: store the value on top under an integer; pop it. */
    method RawSetI(index: nat, n: nat)
      requires |stack| >= 1 && index < |stack|
      requires stack[index].VTable? && stack[index].id in tables
      modifies this`stack, this`tables
      ensures var t := old(stack)[index].id;
              tables == old(tables)[t := old(tables)[t][VNum(n as real) := old(Top(1))]]
      ensures stack == old(stack)[..|old(stack)| - 1]
    {
      var t := stack[index].id;
      tables := tables[t := tables[t][VNum(n as real) := Top(1)]];
      stack := stack[..|stack| - 1];
    }
  }
}
