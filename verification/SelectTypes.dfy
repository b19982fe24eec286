/** The select module's own data: sockets, the select context, and the parts of nginx they refer to. */
module SelectTypes {
  import opened Prelude
  import opened SelectLua

  /** An event handler: none, one of OpenResty's, or one of the module's four. */
  datatype Handler = Null | Foreign(id: nat) | ReadUpstream | WriteUpstream | ReadRequest | WriteRequest

  predicate OfSelect(h: Handler) {
    !h.Null? && !h.Foreign?
  }

  /** One slot of the socket array of a select context. */
  datatype Sock = Sock(
    up: nat, conn: nat, downstream: bool,
    read: bool, write: bool, ref: nat,
    readReady: bool, writeReady: bool,
    prevRead: Handler, prevWrite: Handler)

  /** An upstream structure of OpenResty, without its handlers. */
  datatype Upstream = Upstream(
    conn: Option<nat>, readClosed: bool, request: nat, connWaiting: bool,
    readWaiting: bool, writeWaiting: bool, rawDownstream: bool)

  /** A connection: the answer of the byte-count query (negative on error) and the state of its events. */
  datatype Conn = Conn(bytes: int, readReady: bool, writeReady: bool, readActive: bool, writeActive: bool)

  /**
   * The surroundings of a request, which the module reads: whether the Lua state knows the request, whether the
   * request has its Lua context and a thread in it, and whether its content phase has begun. `contexts` is what
   * slot 1 of a table points to.
   */
  datatype World = World(
    request: nat, connection: nat, buffered: bool,
    requestKnown: bool, luaContext: bool, threadContext: bool, contentPhase: bool,
    ups: map<nat, Upstream>, contexts: map<nat, nat>)

  function UpOf(w: World, u: nat): Upstream {
    if u in w.ups then w.ups[u] else Upstream(None, true, 0, false, false, false, false)
  }

  function ConnOf(conns: map<nat, Conn>, c: nat): Conn {
    if c in conns then conns[c] else Conn(0, false, false, false, false)
  }

  /** The answer given to the Lua caller. */
  datatype Answer = Sockets(table: LuaTable) | Timeout

  // ---------------------------------------------------------------------------
  // The answer, by definition
  // ---------------------------------------------------------------------------

  predicate IsReady(s: Sock) {
    s.readReady || s.writeReady
  }

  function Ready(socks: seq<Sock>): seq<Sock> {
    if socks == [] then []
    else
      var last := socks[|socks| - 1];
      Ready(socks[..|socks| - 1]) + if IsReady(last) then [last] else []
  }

  function ModeText(s: Sock): Val {
    if s.readReady && s.writeReady then VStr("rw", None)
    else if s.readReady then VStr("r", None)
    else VStr("w", None)
  }

  /** What the registry holds under a reference. */
  function Held(live: map<nat, Val>, ref: nat): Val {
    if ref in live then live[ref] else VNil
  }

  /** The key of the entry with `i` others before it. */
  function Index(i: nat): Val {
    VNum((i + 1) as real)
  }

  /** The table as the loop builds it, socket after socket. */
  function Built(socks: seq<Sock>, live: map<nat, Val>): LuaTable
  {
    if socks == [] then map[]
    else
      var before, last := socks[..|socks| - 1], socks[|socks| - 1];
      var t := Built(before, live);
      if IsReady(last) then
        t[Held(live, last.ref) := ModeText(last)][Index(|Ready(before)|) := Held(live, last.ref)]
      else t
  }

  /** The ready sockets in order, each with the text of the directions it is ready in. */
  function Listed(socks: seq<Sock>, live: map<nat, Val>): (listed: seq<(Val, Val)>)
    ensures |listed| == |Ready(socks)|
  {
    if socks == [] then []
    else
      var last := socks[|socks| - 1];
      Listed(socks[..|socks| - 1], live) + if IsReady(last) then [(Held(live, last.ref), ModeText(last))] else []
  }

  /** One of the whole numbers from 1 to `n`. */
  predicate IsIndex(k: Val, n: nat) {
    k.VNum? && k.x == k.x.Floor as real && 1 <= k.x.Floor <= n
  }

  predicate IsListed(k: Val, listed: seq<(Val, Val)>) {
    exists i :: 0 <= i < |listed| && k == listed[i].0
  }

  /**
   * What the caller is promised of a list of sockets with their directions: they are numbered from 1 without
   * gaps and in order, each is mapped to its directions, and there is nothing else in the table.
   */
  ghost predicate Promised(t: LuaTable, listed: seq<(Val, Val)>) {
    && (forall i | 0 <= i < |listed| :: Index(i) in t && t[Index(i)] == listed[i].0)
    && (forall i | 0 <= i < |listed| :: listed[i].0 in t && t[listed[i].0] == listed[i].1)
    && (forall k | k in t :: IsIndex(k, |listed|) || IsListed(k, listed))
  }

  /** Every socket is a table, and no two are the same. */
  predicate DistinctSockets(socks: seq<Sock>, live: map<nat, Val>)
  {
    && (forall i | 0 <= i < |socks| :: Held(live, socks[i].ref).VTable?)
    && (forall i, j | 0 <= i < j < |socks| :: Held(live, socks[i].ref) != Held(live, socks[j].ref))
  }

  lemma {:induction false} ListedAreAmong(socks: seq<Sock>, live: map<nat, Val>, i: nat)
    requires i < |Listed(socks, live)|
    ensures exists j :: 0 <= j < |socks| && Held(live, socks[j].ref) == Listed(socks, live)[i].0
  {
    var before := socks[..|socks| - 1];
    if i < |Listed(before, live)| {
      ListedAreAmong(before, live, i);
      var j :| 0 <= j < |before| && Held(live, before[j].ref) == Listed(before, live)[i].0;
      assert Held(live, socks[j].ref) == Listed(socks, live)[i].0;
    } else {
      assert Held(live, socks[|socks| - 1].ref) == Listed(socks, live)[i].0;
    }
  }

  /** For distinct sockets the table built is the table promised. */
  lemma {:induction false} BuiltAsPromised(socks: seq<Sock>, live: map<nat, Val>)
    requires DistinctSockets(socks, live)
    ensures Promised(Built(socks, live), Listed(socks, live))
  {
    if socks != [] {
      var before, last := socks[..|socks| - 1], socks[|socks| - 1];
      BuiltAsPromised(before, live);
      if IsReady(last) {
        var listed := Listed(before, live);
        forall i | 0 <= i < |listed|
          ensures listed[i].0.VTable? && listed[i].0 != Held(live, last.ref)
        {
          ListedAreAmong(before, live, i);
          var j :| 0 <= j < |before| && Held(live, before[j].ref) == listed[i].0;
          assert before[j] == socks[j];
        }
        PromisedStep(Built(before, live), listed, Held(live, last.ref), ModeText(last));
      }
    }
  }

  lemma PromisedStep(t: LuaTable, listed: seq<(Val, Val)>, sock: Val, mode: Val)
    requires Promised(t, listed) && sock.VTable?
    requires forall i | 0 <= i < |listed| :: listed[i].0.VTable? && listed[i].0 != sock
    ensures Promised(t[sock := mode][Index(|listed|) := sock], listed + [(sock, mode)])
  {
    var n := |listed|;
    var t' := t[sock := mode][Index(n) := sock];
    var listed' := listed + [(sock, mode)];
    assert listed'[n] == (sock, mode);
    forall i | 0 <= i < n
      ensures Index(i) in t' && t'[Index(i)] == listed'[i].0
      ensures listed'[i].0 in t' && t'[listed'[i].0] == listed'[i].1
    {
      assert listed'[i] == listed[i] && Index(i) != Index(n);
    }
    forall k | k in t'
      ensures IsIndex(k, n + 1) || IsListed(k, listed')
    {
      if k in t {
        StillKnown(k, listed, (sock, mode));
      }
    }
  }

  lemma StillKnown(k: Val, listed: seq<(Val, Val)>, last: (Val, Val))
    requires IsIndex(k, |listed|) || IsListed(k, listed)
    ensures IsIndex(k, |listed| + 1) || IsListed(k, listed + [last])
  {
    if i: nat :| i < |listed| && k == listed[i].0 {
      assert (listed + [last])[i] == listed[i];
    }
  }
}
