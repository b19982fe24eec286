/** Collecting the sockets: which calls fail, what is collected, and which references are taken. */
module SelectCollect {
  import opened SelectLua
  import opened SelectTypes
  import opened SelectProtocol

  function Picks(w: World, es: seq<(Val, Val)>, i: nat): Pick
    requires i < |es|
  {
    PickEntry(w, es[i].0, es[i].1)
  }

  /** The registry grew by exactly the references in `refs`, all new and different, one for each value. */
  ghost predicate Took(before: Registry, after: Registry, refs: seq<nat>, vals: seq<Val>) {
    && Sound(after)
    && |refs| == |vals|
    && NoRepeats(refs)
    && (forall i | 0 <= i < |refs| :: refs[i] !in before.live)
    && (forall k :: k in after.live <==> k in before.live || k in refs)
    && (forall k | k in before.live :: after.live[k] == before.live[k])
    && (forall i | 0 <= i < |refs| :: after.live[refs[i]] == vals[i])
  }

  lemma TookOne(before: Registry, mid: Registry, refs: seq<nat>, vals: seq<Val>, v: Val)
    requires Took(before, mid, refs, vals)
    ensures Took(before, Refer(mid, v), refs + [RefOf(mid)], vals + [v])
  {
    ReferSound(mid, v);
    var ref := RefOf(mid);
    assert forall i | 0 <= i < |refs| :: refs[i] in mid.live;
    assert ref !in before.live;
  }

  /** What was asked for in an entry: the socket's table. */
  function SocketOf(w: World, e: (Val, Val)): Val {
    match PickEntry(w, e.0, e.1)
    case Ok(p) => p.sock
    case Err(_) => VNil
  }

  function SocketsOf(w: World, es: seq<(Val, Val)>): seq<Val> {
    seq(|es|, i requires 0 <= i < |es| => SocketOf(w, es[i]))
  }

  /** A socket slot filled from an entry. */
  predicate FilledFrom(w: World, e: (Val, Val), s: Sock) {
    PickEntry(w, e.0, e.1).Ok? && s == NewSock(w, PickEntry(w, e.0, e.1).picked, s.ref)
  }

  /** The sockets of the first entries are in the array, in order, each with a reference of its own to its table. */
  ghost predicate Gathered(w: World, es: seq<(Val, Val)>, socks: seq<Sock>, start: Registry, reg: Registry) {
    && |socks| <= |es|
    && (forall i | 0 <= i < |socks| :: FilledFrom(w, es[i], socks[i]))
    && Took(start, reg, Refs(socks), SocketsOf(w, es[..|socks|]))
  }

  lemma FilledOne(w: World, es: seq<(Val, Val)>, socks: seq<Sock>, s: Sock)
    requires |socks| < |es| && FilledFrom(w, es[|socks|], s)
    requires forall i | 0 <= i < |socks| :: FilledFrom(w, es[i], socks[i])
    ensures forall i | 0 <= i < |socks + [s]| :: FilledFrom(w, es[i], (socks + [s])[i])
  {
  }

  lemma AppendOne(w: World, es: seq<(Val, Val)>, socks: seq<Sock>, s: Sock)
    requires |socks| < |es|
    ensures Refs(socks + [s]) == Refs(socks) + [s.ref]
    ensures SocketsOf(w, es[..|socks + [s]|]) == SocketsOf(w, es[..|socks|]) + [SocketOf(w, es[|socks|])]
  {
  }

  lemma GatherOne(w: World, es: seq<(Val, Val)>, socks: seq<Sock>, start: Registry, reg: Registry)
    requires Gathered(w, es, socks, start, reg) && |socks| < |es|
    requires Picks(w, es, |socks|).Ok?
    ensures var p := Picks(w, es, |socks|).picked;
            Gathered(w, es, socks + [NewSock(w, p, RefOf(reg))], start, Refer(reg, p.sock))
  {
    var n := |socks|;
    var p := Picks(w, es, n).picked;
    var s := NewSock(w, p, RefOf(reg));
    TookOne(start, reg, Refs(socks), SocketsOf(w, es[..n]), p.sock);
    FilledOne(w, es, socks, s);
    AppendOne(w, es, socks, s);
  }

  /**
   * Collection goes through the entries in order up to the first bad one, which is the one reported, and
   * has gathered the sockets before it.
   */
  lemma {:induction false} CollectSpec(w: World, es: seq<(Val, Val)>, socks: seq<Sock>, start: Registry, reg: Registry)
    requires Gathered(w, es, socks, start, reg)
    ensures var c := Collect(w, es[|socks|..], socks, reg);
            && Gathered(w, es, c.socks, start, c.reg)
            && (c.failure.None? <==> |c.socks| == |es|)
            && (|c.socks| < |es| ==> Picks(w, es, |c.socks|) == Err(c.failure.value))
    decreases |es| - |socks|
  {
    var n := |socks|;
    if n < |es| {
      assert es[n..][0] == es[n] && es[n..][1..] == es[n + 1..];
      match Picks(w, es, n)
      case Err(f) =>
      case Ok(p) =>
        GatherOne(w, es, socks, start, reg);
        CollectSpec(w, es, socks + [NewSock(w, p, RefOf(reg))], start, Refer(reg, p.sock));
    }
  }

  /** The same for a whole call, with the context's own reference taken first. */
  lemma CallCollects(m: Machine, call: Call)
    requires Sound(m.reg)
    ensures var c := CollectFor(m, call);
            && Gathered(m.world, call.entries, c.socks, Refer(m.reg, VData(0)), c.reg)
            && (c.failure.None? <==> |c.socks| == |call.entries|)
            && (|c.socks| < |call.entries| ==> Picks(m.world, call.entries, |c.socks|) == Err(c.failure.value))
    ensures RefOf(m.reg) !in m.reg.live && Sound(Refer(m.reg, VData(0)))
    ensures Refer(m.reg, VData(0)).live == m.reg.live[RefOf(m.reg) := VData(0)]
  {
    ReferSound(m.reg, VData(0));
    var reg := Refer(m.reg, VData(0));
    assert Refs([]) == [] && SocketsOf(m.world, call.entries[..0]) == [];
    assert Took(reg, reg, [], []);
    CollectSpec(m.world, call.entries, [], reg, reg);
    assert call.entries[0..] == call.entries;
  }

  /** A context's reference and those of its sockets are live and all different. */
  ghost predicate AllLive(g: Registry, ref: nat, socks: seq<Sock>) {
    && NoRepeats([ref] + Refs(socks))
    && ref in g.live
    && (forall i | 0 <= i < |socks| :: socks[i].ref in g.live)
  }

  /** So they are after collecting, and whatever was live before still is. */
  lemma CollectedLive(m: Machine, call: Call)
    requires Sound(m.reg)
    ensures AllLive(CollectFor(m, call).reg, RefOf(m.reg), CollectFor(m, call).socks)
    ensures m.reg.live.Keys <= CollectFor(m, call).reg.live.Keys
  {
    var c := CollectFor(m, call);
    CallCollects(m, call);
    var base := Refer(m.reg, VData(0));
    assert RefOf(m.reg) in base.live;
    forall i | 0 <= i < |c.socks|
      ensures c.socks[i].ref in c.reg.live && c.socks[i].ref != RefOf(m.reg)
    {
      assert Refs(c.socks)[i] == c.socks[i].ref && c.socks[i].ref in Refs(c.socks);
    }
  }

  /** Releasing everything taken gives back the registry's contents. */
  lemma ReleaseTaken(before: Registry, after: Registry, own: nat, refs: seq<nat>, vals: seq<Val>, base: Registry)
    requires Sound(base) && base == Refer(before, VData(0)) && own == RefOf(before) && Sound(before)
    requires Took(base, after, refs, vals)
    ensures var r := ReleaseAll(after, refs);
            Sound(r) && own in r.live && Sound(Release(r, own)) && Release(r, own).live == before.live
  {
    ReferSound(before, VData(0));
    ReleaseAllSound(after, refs);
    var gone := set i | 0 <= i < |refs| :: refs[i];
    var r := ReleaseAll(after, refs);
    assert own in base.live && own !in gone;
    ReleaseSound(r, own);
    forall k
      ensures k in Release(r, own).live <==> k in before.live
    {
      assert k in gone <==> k in refs;
    }
    assert forall k | k in before.live :: Release(r, own).live[k] == base.live[k] == before.live[k];
  }

  /**
   * A failing call releases the context's reference but not those of the sockets collected before the
   * failure: what was live stays as it was, and exactly their references leak.
   */
  lemma FailureLeaks(m: Machine, call: Call)
    requires Sound(m.reg) && CheckCall(m.world, call).None?
    requires CollectFor(m, call).failure.Some? || ProbeFails(m.conns, CollectFor(m, call).socks)
    ensures var c := CollectFor(m, call);
            var after := SelectStep(m, call);
            && after.last.Raised? && after.status == m.status && after.slot == m.slot && after.hs == m.hs
            && (forall k :: k in after.reg.live <==> k in m.reg.live || k in Refs(c.socks))
            && (forall k | k in m.reg.live :: after.reg.live[k] == m.reg.live[k])
            && (forall i | 0 <= i < |c.socks| :: c.socks[i].ref !in m.reg.live)
            && Sound(after.reg)
  {
    var c := CollectFor(m, call);
    CallCollects(m, call);
    ReleaseSound(c.reg, RefOf(m.reg));
    var base := Refer(m.reg, VData(0));
    assert RefOf(m.reg) in base.live;
    forall i | 0 <= i < |c.socks|
      ensures c.socks[i].ref !in m.reg.live && c.socks[i].ref != RefOf(m.reg)
    {
      assert Refs(c.socks)[i] == c.socks[i].ref;
    }
  }

  /** So a failing call leaves the registry as it was exactly if it collected no socket first. */
  lemma FailureConservesIff(m: Machine, call: Call)
    requires Sound(m.reg) && CheckCall(m.world, call).None?
    requires CollectFor(m, call).failure.Some? || ProbeFails(m.conns, CollectFor(m, call).socks)
    ensures SelectStep(m, call).reg.live == m.reg.live <==> CollectFor(m, call).socks == []
    ensures CollectFor(m, call).socks == [] <==> call.entries != [] && Picks(m.world, call.entries, 0).Err?
  {
    var c := CollectFor(m, call);
    FailureLeaks(m, call);
    CallCollects(m, call);
    if c.socks != [] {
      assert Refs(c.socks)[0] == c.socks[0].ref && c.socks[0].ref in Refs(c.socks);
      assert FilledFrom(m.world, call.entries[0], c.socks[0]);
    } else {
      assert Refs(c.socks) == [];
    }
  }
}
