/** The select module as it runs: a request with its Lua state, handlers and events, changed in place. */
module SelectWorker {
  import opened Prelude
  import opened SelectLua
  import opened SelectTypes
  import opened SelectProtocol
  import opened SelectCollect
  import opened SelectHandlers
  import opened SelectRuns
  import opened SelectSound

  const BLANK := Sock(0, 0, false, false, false, 0, false, false, Null, Null)

  /** The context a call allocates: its sockets in an array of fixed length, and its two events. */
  class SelectCtx {
    const socket: array<Sock>
    var ref: nat
    var prevRead: Handler
    var prevWrite: Handler
    var posted: bool
    var timerSet: bool
    var timedout: bool

    constructor (count: nat)
      ensures fresh(socket) && socket.Length == count
      ensures prevRead == prevWrite == Null && !posted && !timerSet && !timedout
    {
      socket := new Sock[count](_ => BLANK);
      ref, prevRead, prevWrite := 0, Null, Null;
      posted, timerSet, timedout := false, false, false;
    }

    ghost function View(): Ctx
      reads this, socket
    {
      Ctx(socket[..], ref, prevRead, prevWrite, posted, timerSet, timedout)
    }
  }

  /** Two states agree if they are equal, or if the process has crashed in both. */
  predicate Agree(a: Machine, b: Machine) {
    a == b || (a.status.Crashed? && b.status.Crashed?)
  }

  /** The same sockets, up to their ready flags. */
  predicate SameSelection(a: seq<Sock>, b: seq<Sock>) {
    |a| == |b| && forall i | 0 <= i < |a| :: a[i] == b[i].(readReady := a[i].readReady, writeReady := a[i].writeReady)
  }

  lemma {:induction false} SelectionDeactivates(conns: map<nat, Conn>, a: seq<Sock>, b: seq<Sock>)
    requires SameSelection(a, b)
    ensures Deactivate(conns, a) == Deactivate(conns, b)
  {
    if a != [] {
      SelectionDeactivates(conns, a[..|a| - 1], b[..|b| - 1]);
    }
  }

  /** Marking the sockets that have unread bytes; a failing query stops it. */
  method SocketsReady(conns: map<nat, Conn>, ctx: SelectCtx) returns (ready: nat, err: bool)
    modifies ctx.socket
    ensures err <==> ProbeFails(conns, old(ctx.socket[..]))
    ensures !err ==> ctx.socket[..] == ProbeAll(conns, old(ctx.socket[..]))
    ensures !err ==> (ready > 0 <==> BytesWaiting(conns, old(ctx.socket[..])))
    ensures SameSelection(ctx.socket[..], old(ctx.socket[..]))
  {
    ghost var socks := ctx.socket[..];
    ready := 0;
    for i := 0 to ctx.socket.Length
      invariant forall j | 0 <= j < i :: ctx.socket[j] == Probed(conns, socks[j])
      invariant forall j | i <= j < |socks| :: ctx.socket[j] == socks[j]
      invariant forall j | 0 <= j < i :: ConnOf(conns, socks[j].conn).bytes >= 0
      invariant ready > 0 <==> exists j :: 0 <= j < i && ConnOf(conns, socks[j].conn).bytes > 0
    {
      var bytes := ConnOf(conns, ctx.socket[i].conn).bytes;
      if bytes < 0 {
        return 0, true;
      }
      if bytes > 0 {
        ctx.socket[i] := ctx.socket[i].(readReady := true);
        ready := ready + 1;
      }
    }
    err := false;
  }

  /** One ready socket's part of the answer, in the table at an index; the stack ends at the height it began at. */
  method PushSocket(lua: Lua, s: Sock, index: nat, readyCount: nat)
    requires index < |lua.stack| && lua.stack[index].VTable? && lua.stack[index].id in lua.tables
    requires IsReady(s)
    modifies lua`stack, lua`tables
    ensures lua.stack == old(lua.stack)
    ensures var id, sock := lua.stack[index].id, Held(lua.registry.live, s.ref);
            lua.tables
            == old(lua.tables)[id := old(lua.tables)[id][sock := ModeText(s)][VNum(readyCount as real) := sock]]
  {
    ghost var base := lua.stack;
    lua.Push(Held(lua.registry.live, s.ref));
    lua.Push(lua.Top(1));
    if s.readReady && s.writeReady {
      lua.Push(VStr("rw", None));
    } else if s.readReady {
      lua.Push(VStr("r", None));
    } else {
      lua.Push(VStr("w", None));
    }
    lua.SetTable(index);
    assert lua.stack == base + [Held(lua.registry.live, s.ref)];
    lua.RawSetI(index, readyCount);
  }

  /** Building the answer on the Lua stack; the number of values returned. */
  method PushResult(lua: Lua, ctx: SelectCtx) returns (count: nat)
    modifies lua`stack, lua`tables, lua`made
    ensures lua.registry == old(lua.registry)
    ensures var answer := AnswerOf(ctx.socket[..], lua.registry.live, ctx.timedout);
            if answer.Timeout? then count == 2 && lua.stack == old(lua.stack) + [VNil, VStr("timeout", None)]
            else count == 1 && var id := old(lua.made);
                 id in lua.tables && lua.tables[id] == answer.table && lua.stack == old(lua.stack) + [VTable(id)]
  {
    var readyCount := 0;
    var id := lua.CreateTable();
    var tableIndex := |lua.stack| - 1;
    ghost var base, live, socks := old(lua.stack), lua.registry.live, ctx.socket[..];
    for i := 0 to ctx.socket.Length
      invariant lua.stack == base + [VTable(id)] && id in lua.tables && lua.registry == old(lua.registry)
      invariant lua.tables[id] == Built(socks[..i], live)
      invariant readyCount == |Ready(socks[..i])|
    {
      assert socks[..i + 1][..i] == socks[..i] && socks[..i + 1][i] == ctx.socket[i];
      var s := ctx.socket[i];
      if !s.readReady && !s.writeReady {
        continue;
      }
      readyCount := readyCount + 1;
      PushSocket(lua, s, tableIndex, readyCount);
    }
    assert socks[..|socks|] == socks;
    if readyCount == 0 && ctx.timedout {
      lua.Pop(1);
      assert lua.stack == base;
      lua.Push(VNil);
      lua.Push(VStr("timeout", None));
      return 2;
    }
    count := 1;
  }

  /** The key after which the traversal stands is that of entry `i`. */
  lemma AtEntry(es: seq<(Val, Val)>, i: nat)
    requires Traversable(es) && i < |es|
    ensures After(es, es[i].0) == i + 1
  {
  }

  /** A request with its one Lua thread, and the parts of nginx the module changes. */
  class Worker {
    const lua: Lua
    var world: World
    var conns: map<nat, Conn>
    var hs: Handlers
    var slot: SelectCtx?
    var queued: nat
    var timers: nat
    var cleanup: bool
    var resumer: Resumer
    var status: Status
    var last: Outcome
    var resumes: nat

    /** The state as the protocol sees it. */
    ghost function Snap(): Machine
      reads this, lua, if slot == null then {} else {slot as object, slot.socket}
    {
      Machine(world, conns, hs, lua.registry, if slot == null then None else Some(slot.View()),
              queued, timers, cleanup, resumer, status, last, resumes)
    }

    constructor (lua: Lua, world: World, conns: map<nat, Conn>, hs: Handlers)
      ensures this.lua == lua && slot == null
      ensures Snap() == Machine(world, conns, hs, lua.registry, None, 0, 0, false, UsualHandler, Running, Nothing, 0)
    {
      this.lua, this.world, this.conns, this.hs := lua, world, conns, hs;
      slot, queued, timers, cleanup, resumer := null, 0, 0, false, UsualHandler;
      status, last, resumes := Running, Nothing, 0;
    }

    // -------------------------------------------------------------------------
    // The call
    // -------------------------------------------------------------------------

    /** From the key of the last of the first `n` pairs, or nil, to the next pair. */
    method NextPair(es: seq<(Val, Val)>, ghost n: nat) returns (more: bool)
      requires Traversable(es) && n <= |es| && lua.stack != []
      requires lua.Top(1) == if n == 0 then VNil else es[n - 1].0
      modifies lua`stack
      ensures more == (n < |es|)
      ensures lua.stack == old(lua.stack)[..|old(lua.stack)| - 1] + if n < |es| then [es[n].0, es[n].1] else []
    {
      if n > 0 {
        AtEntry(es, n - 1);
      }
      more := lua.Next(es);
    }

    /** The first pass over the table: every pair is visited once, and the stack is left as it was. */
    method CountSockets(es: seq<(Val, Val)>) returns (socketcount: nat)
      requires Traversable(es)
      modifies lua`stack
      ensures socketcount == |es| && lua.stack == old(lua.stack)
    {
      ghost var base := lua.stack;
      socketcount := 0;
      lua.Push(VNil);
      var more := NextPair(es, 0);
      while more
        invariant socketcount <= |es| && more == (socketcount < |es|)
        invariant lua.stack == base + if more then [es[socketcount].0, es[socketcount].1] else []
        decreases |es| - socketcount
      {
        socketcount := socketcount + 1;
        lua.Pop(1);
        more := NextPair(es, socketcount);
      }
    }

    /** The checks on a socket's upstream, in their order. */
    method CheckSocket(up: nat, read: bool, write: bool) returns (failure: Option<Failure>)
      ensures failure == match CheckUpstream(world, Picked(VNil, up, read, write))
                         case Ok(_) => None
                         case Err(f) => Some(f)
    {
      var u := UpOf(world, up);
      if u.conn == None || u.readClosed {
        return Some(Closed);
      }
      if u.request != world.request {
        return Some(WrongRequest);
      }
      if u.connWaiting {
        return Some(Connecting);
      }
      if read && u.readWaiting {
        return Some(BusyReading);
      }
      if write && (u.writeWaiting || (u.rawDownstream && world.buffered)) {
        return Some(BusyWriting);
      }
      failure := None;
    }

    /**
     * One turn of the second pass, with the key and the value on the stack: either a failure, or the
     * upstream and the directions, and the socket's table left on the stack above the key.
     */
    method PickSocket() returns (up: nat, read: bool, write: bool, failure: Option<Failure>)
      requires |lua.stack| >= 2
      modifies lua`stack
      ensures match PickEntry(world, old(lua.Top(2)), old(lua.Top(1)))
              case Err(f) => failure == Some(f)
              case Ok(p) => failure == None && up == p.up && read == p.read && write == p.write
                            && lua.stack == old(lua.stack)[..|old(lua.stack)| - 1] + [p.sock]
    {
      up, read, write := 0, false, false;
      var key, val := lua.Top(2), lua.Top(1);
      ghost var below := lua.stack[..|lua.stack| - 2];
      var context: Option<nat> := None;
      if IsNumber(key) {
        if !val.VTable? {
          return 0, false, false, Some(BadSocket);
        }
        lua.Push(VOther(0));
        context := if val.id in world.contexts then Some(world.contexts[val.id]) else None;
        lua.Pop(1);
        read := true;
      } else if IsString(val) && key.VTable? {
        read := HasChar(ModeString(val), 'r');
        write := HasChar(ModeString(val), 'w');
        if !read && !write {
          return 0, false, false, Some(BadMode);
        }
        lua.Push(VOther(0));
        context := if key.id in world.contexts then Some(world.contexts[key.id]) else None;
        lua.Pop(2);
        assert lua.stack == below + [key];
        lua.Push(lua.Top(1));
      } else {
        return 0, false, false, Some(BadEntry);
      }
      if context == None {
        return 0, false, false, Some(NoContext);
      }
      up := context.value;
      failure := CheckSocket(up, read, write);
    }

    /** Storing a socket in the array, with a reference to its table, which is popped. */
    method StoreSocket(ctx: SelectCtx, i: nat, picked: Picked)
      requires i < ctx.socket.Length && lua.stack != [] && lua.Top(1) == picked.sock
      requires UpOf(world, picked.up).conn.Some?
      modifies lua`stack, lua`registry, ctx.socket
      ensures lua.stack == old(lua.stack)[..|old(lua.stack)| - 1]
      ensures lua.registry == Refer(old(lua.registry), picked.sock)
      ensures ctx.socket[..i + 1] == old(ctx.socket[..i]) + [NewSock(world, picked, RefOf(old(lua.registry)))]
    {
      var c := UpOf(world, picked.up).conn.value;
      var ref := lua.Ref();
      ctx.socket[i] := BLANK.(read := picked.read, write := picked.write, up := picked.up, ref := ref, conn := c,
                              downstream := c == world.connection);
    }

    /** One turn of the second pass: the pair on the stack is checked and stored, and its key left there. */
    method FillSocket(ctx: SelectCtx, i: nat, es: seq<(Val, Val)>) returns (failure: Option<Failure>)
      requires i < ctx.socket.Length && es != []
      requires |lua.stack| >= 2 && es[0] == (lua.Top(2), lua.Top(1))
      modifies lua`stack, lua`registry, ctx.socket
      ensures failure.None? ==> lua.stack == old(lua.stack)[..|old(lua.stack)| - 1]
      ensures failure.None? ==> Collect(world, es, old(ctx.socket[..i]), old(lua.registry))
                                == Collect(world, es[1..], ctx.socket[..i + 1], lua.registry)
      ensures failure.Some? ==> Collect(world, es, old(ctx.socket[..i]), old(lua.registry))
                                == Collected(ctx.socket[..i], lua.registry, failure)
    {
      var up, read, write, bad := PickSocket();
      failure := bad;
      if bad.None? {
        StoreSocket(ctx, i, Picked(lua.Top(1), up, read, write));
      }
    }

    /** The second pass: sockets are checked and stored in the array, one for each pair. */
    method FillSockets(es: seq<(Val, Val)>, ctx: SelectCtx) returns (n: nat, failure: Option<Failure>)
      requires Traversable(es) && ctx.socket.Length == |es|
      modifies lua`stack, lua`registry, ctx.socket
      ensures n <= |es|
      ensures Collected(ctx.socket[..n], lua.registry, failure) == Collect(world, es, [], old(lua.registry))
      ensures failure.None? ==> n == |es| && lua.stack == old(lua.stack)
    {
      ghost var base, whole := lua.stack, Collect(world, es, [], lua.registry);
      n, failure := 0, None;
      lua.Push(VNil);
      var more := NextPair(es, 0);
      assert es[0..] == es && ctx.socket[..0] == [];
      while more
        invariant n <= |es| && more == (n < |es|) && failure.None?
        invariant lua.stack == base + if more then [es[n].0, es[n].1] else []
        invariant whole == Collect(world, es[n..], ctx.socket[..n], lua.registry)
        decreases |es| - n
      {
        assert es[n..][0] == es[n] && es[n..][1..] == es[n + 1..];
        failure := FillSocket(ctx, n, es[n..]);
        if failure.Some? {
          return;
        }
        assert lua.stack == base + [es[n].0];
        n := n + 1;
        more := NextPair(es, n);
      }
      assert es[n..] == [];
    }

    /** On failure the context's reference is released, and the events of the sockets so far are removed. */
    method FailCleanup(ctx: SelectCtx, selectedSoFar: nat)
      requires selectedSoFar <= ctx.socket.Length && ctx.ref in lua.registry.live
      modifies this`conns, lua`registry
      ensures lua.registry == Release(old(lua.registry), ctx.ref)
      ensures conns == Deactivate(old(conns), ctx.socket[..selectedSoFar])
    {
      lua.Unref(ctx.ref);
      for i := 0 to selectedSoFar
        invariant conns == Deactivate(old(conns), ctx.socket[..i])
        invariant lua.registry == Release(old(lua.registry), ctx.ref)
      {
        var s := ctx.socket[i];
        var c := ConnOf(conns, s.conn);
        if s.read && c.readActive {
          c := c.(readActive := false);
        }
        if s.write && c.writeActive {
          c := c.(writeActive := false);
        }
        conns := conns[s.conn := c];
        assert ctx.socket[..i + 1][..i] == ctx.socket[..i];
      }
    }

    /** One socket's handlers: saved in its slot, or in the context, and replaced by the module's. */
    method InstallSocket(ctx: SelectCtx, i: nat)
      requires i < ctx.socket.Length
      modifies this`hs, ctx`prevRead, ctx`prevWrite, ctx.socket
      ensures Installed(hs, ctx.prevRead, ctx.prevWrite, [ctx.socket[i]])
           == InstallOne(Installed(old(hs), old(ctx.prevRead), old(ctx.prevWrite), []), old(ctx.socket[i]))
      ensures ctx.socket[..i] == old(ctx.socket[..i]) && ctx.socket[i + 1..] == old(ctx.socket[i + 1..])
    {
      var s := ctx.socket[i];
      if s.downstream {
        if s.read {
          ctx.prevRead := hs.reqRead;
          hs := hs.(reqRead := ReadRequest);
        }
        if s.write {
          ctx.prevWrite := hs.reqWrite;
          hs := hs.(reqWrite := WriteRequest);
        }
      } else {
        if s.read {
          s := s.(prevRead := ReadOf(hs, s.up));
          hs := hs.(upRead := hs.upRead[s.up := ReadUpstream]);
        } else {
          s := s.(prevRead := Null);
        }
        if s.write {
          s := s.(prevWrite := WriteOf(hs, s.up));
          hs := hs.(upWrite := hs.upWrite[s.up := WriteUpstream]);
        } else {
          s := s.(prevWrite := Null);
        }
      }
      ctx.socket[i] := s.(readReady := false, writeReady := false);
    }

    /** Saving the handlers of the selected sockets and putting the module's in their place. */
    method InstallHandlers(ctx: SelectCtx)
      requires ctx.prevRead == ctx.prevWrite == Null
      modifies this`hs, ctx`prevRead, ctx`prevWrite, ctx.socket
      ensures Installed(hs, ctx.prevRead, ctx.prevWrite, ctx.socket[..]) == Install(old(hs), old(ctx.socket[..]))
    {
      ghost var socks := ctx.socket[..];
      for i := 0 to ctx.socket.Length
        invariant Installed(hs, ctx.prevRead, ctx.prevWrite, ctx.socket[..i]) == Install(old(hs), socks[..i])
        invariant ctx.socket[i..] == socks[i..]
      {
        assert socks[..i + 1][..i] == socks[..i] && socks[..i + 1][i] == socks[i];
        assert ctx.socket[i] == ctx.socket[i..][0] == socks[i];
        ghost var before := ctx.socket[..i];
        InstallSocket(ctx, i);
        assert ctx.socket[..i + 1] == before + [ctx.socket[i]];
      }
      assert ctx.socket[..ctx.socket.Length] == ctx.socket[..] && socks[..|socks|] == socks;
    }

    /** The references held by the registered context are live and different. */
    ghost predicate HoldsRefs()
      reads this, lua, if slot == null then {} else {slot as object, slot.socket}
    {
      slot != null ==> AllLive(lua.registry, slot.ref, slot.socket[..])
    }

    /** Putting back the read handler of every socket and releasing its reference, up to a handler that is missing. */
    method RestoreHandlers(ctx: SelectCtx) returns (ok: bool)
      requires AllLive(lua.registry, ctx.ref, ctx.socket[..])
      modifies this`hs, lua`registry
      ensures !ok ==> Restore(old(hs), ctx.prevRead, ctx.socket[..]).None?
      ensures ok ==> Restore(old(hs), ctx.prevRead, ctx.socket[..]) == Some(hs)
                     && lua.registry == ReleaseAll(old(lua.registry), Refs(ctx.socket[..]))
                     && ctx.ref in lua.registry.live
    {
      ghost var socks := ctx.socket[..];
      for i := 0 to ctx.socket.Length
        invariant Restore(old(hs), ctx.prevRead, socks[..i]) == Some(hs)
        invariant ReleaseAll(old(lua.registry), Refs(socks)) == ReleaseAll(lua.registry, Refs(socks[i..]))
        invariant ctx.ref in lua.registry.live
        invariant forall j | i <= j < ctx.socket.Length :: socks[j].ref in lua.registry.live
      {
        RestoreStops(old(hs), ctx.prevRead, socks, i);
        ReleaseNext(lua.registry, socks, i, ctx.ref);
        var s := ctx.socket[i];
        if s.downstream {
          if ctx.prevRead == Null {
            return false;
          }
          hs := hs.(reqRead := ctx.prevRead);
        } else {
          if s.prevRead == Null {
            return false;
          }
          hs := hs.(upRead := hs.upRead[s.up := s.prevRead]);
        }
        lua.Unref(s.ref);
      }
      assert socks[..|socks|] == socks && Refs(socks[|socks|..]) == [];
      ok := true;
    }

    /** Undoing the select the registered context stands for; with none registered, or a handler missing, a crash. */
    method Discard()
      requires HoldsRefs()
      modifies this`status, this`timers, this`hs, this`slot, lua`registry
      ensures Agree(Snap(), SelectProtocol.Discard(old(Snap())))
      ensures !status.Crashed? ==> slot == null
      ensures slot == null || slot == old(slot)
    {
      if slot == null {
        status := Crashed;
        return;
      }
      if slot.timerSet {
        timers := if timers > 0 then timers - 1 else 0;
      }
      var ok := RestoreHandlers(slot);
      if !ok {
        status := Crashed;
        return;
      }
      lua.Unref(slot.ref);
      slot := null;
    }

    /** The thread's pending operation, if there is one, is cleaned up. */
    method RunCleanup()
      requires HoldsRefs()
      modifies this`status, this`timers, this`hs, this`slot, this`cleanup, lua`registry
      ensures Agree(Snap(), SelectProtocol.RunCleanup(old(Snap())))
      ensures !status.Crashed? ==> HoldsRefs()
      ensures slot == null || slot == old(slot)
    {
      if cleanup {
        Discard();
        cleanup := false;
      }
    }

    /** Installing the handlers, arming the timer and registering the context. */
    method Register(ctx: SelectCtx, arms: bool)
      requires ctx.prevRead == ctx.prevWrite == Null && !ctx.timerSet && !ctx.timedout
      requires AllLive(lua.registry, ctx.ref, ctx.socket[..])
      modifies this`hs, this`timers, this`slot, ctx, ctx.socket
      ensures Snap() == Registered(old(Snap()), old(ctx.socket[..]), old(ctx.ref), arms)
      ensures HoldsRefs() && slot == ctx
    {
      ghost var socks := ctx.socket[..];
      InstallHandlers(ctx);
      SameRefs(old(hs), socks);
      if arms {
        ctx.timerSet := true;
        timers := timers + 1;
      }
      ctx.posted := false;
      slot := ctx;
      StillLive(lua.registry, ctx.ref, socks, ctx.socket[..]);
    }

    /** The call, with its arguments on the stack. */
    method Select(call: Call)
      requires status.Running? && HoldsRefs() && Sound(lua.registry)
      requires lua.stack == call.args && Traversable(call.entries)
      modifies this, lua
      ensures Agree(Snap(), SelectStep(old(Snap()), call))
      ensures old(slot) == null && !status.Crashed? ==> HoldsRefs()
      ensures slot == null || slot == old(slot) || (fresh(slot) && fresh(slot.socket))
    {
      var n := |lua.stack|;
      if n == 0 {
        last := Raised(NoArguments);
        return;
      }
      if n > 2 {
        last := Raised(TooManyArguments);
        return;
      }
      if !lua.stack[0].VTable? {
        last := Raised(NotATable);
        return;
      }
      if n == 2 && !IsNumber(lua.stack[1]) && !lua.stack[1].VNil? {
        last := Raised(BadTimeout);
        return;
      }
      var timeout := 0.0;
      if n == 2 && IsNumber(lua.stack[1]) {
        timeout := ToNumber(lua.stack[1]);
        if timeout < 0.0 {
          last := Raised(NegativeTimeout);
          return;
        }
      }
      if !world.requestKnown {
        last := Raised(NoRequest);
        return;
      }
      if !world.luaContext {
        last := Raised(NoRequestContext);
        return;
      }
      if !world.threadContext {
        last := Raised(NoThreadContext);
        return;
      }
      SelectSockets(call, timeout > 0.0);
    }

    /** The result is built from a context, and whatever context is registered is discarded. */
    method AnswerFrom(ctx: SelectCtx)
      requires HoldsRefs()
      modifies this, lua
      ensures var before := old(Snap());
              var d := SelectProtocol.Discard(before);
              Agree(Snap(), if d.status.Crashed? then d
                            else d.(last := Returned(AnswerOf(old(ctx.socket[..]), before.reg.live,
                                                              old(ctx.timedout)))))
      ensures !status.Crashed? ==> status == old(status) && slot == null
      ensures slot == null || slot == old(slot)
    {
      var count := PushResult(lua, ctx);
      var answer := if count == 2 then Timeout else Sockets(lua.tables[lua.Top(1).id]);
      Discard();
      last := Returned(answer);
    }

    /** The two passes over the table, with the context allocated in between. */
    method CollectSockets(call: Call) returns (ctx: SelectCtx, i: nat, failure: Option<Failure>)
      requires Traversable(call.entries)
      modifies lua`stack, lua`registry
      ensures fresh(ctx) && fresh(ctx.socket) && ctx.ref == RefOf(old(lua.registry))
      ensures ctx.prevRead == ctx.prevWrite == Null && !ctx.timerSet && !ctx.timedout
      ensures i <= ctx.socket.Length && (failure.None? ==> ctx.socket[..i] == ctx.socket[..])
      ensures Collected(ctx.socket[..i], lua.registry, failure)
           == Collect(world, call.entries, [], Refer(old(lua.registry), VData(0)))
    {
      var socketcount := CountSockets(call.entries);
      ctx := new SelectCtx(socketcount);
      lua.Push(VData(0));
      ctx.ref := lua.Ref();
      i, failure := FillSockets(call.entries, ctx);
      assert failure.None? ==> ctx.socket[..i] == ctx.socket[..];
    }

    /** Collecting the sockets, and what follows. */
    method SelectSockets(call: Call, arms: bool)
      requires status.Running? && HoldsRefs() && Sound(lua.registry)
      requires CheckCall(world, call).None? && arms == Arms(call) && Traversable(call.entries)
      modifies this, lua
      ensures Agree(Snap(), SelectStep(old(Snap()), call))
      ensures old(slot) == null && !status.Crashed? ==> HoldsRefs()
      ensures slot == null || slot == old(slot) || (fresh(slot) && fresh(slot.socket))
    {
      CollectedLive(Snap(), call);
      var ctx, i, failure := CollectSockets(call);
      FinishCall(ctx, i, failure, arms);
    }

    /** A failure of the passes ends the call; otherwise it goes on. */
    method FinishCall(ctx: SelectCtx, i: nat, failure: Option<Failure>, arms: bool)
      requires status.Running? && HoldsRefs()
      requires slot != ctx && (slot != null ==> slot.socket != ctx.socket)
      requires ctx.prevRead == ctx.prevWrite == Null && !ctx.timerSet && !ctx.timedout
      requires i <= ctx.socket.Length && (failure.None? ==> ctx.socket[..i] == ctx.socket[..])
      requires AllLive(lua.registry, ctx.ref, ctx.socket[..i])
      modifies this, lua, ctx, ctx.socket
      ensures var collected := Collected(old(ctx.socket[..i]), old(lua.registry), failure);
              Agree(Snap(), AfterPasses(old(Snap()), collected, old(ctx.ref), arms))
      ensures old(slot) == null && !status.Crashed? ==> HoldsRefs()
      ensures slot == null || slot == old(slot) || slot == ctx
    {
      if failure.Some? {
        FailCleanup(ctx, i);
        last := Raised(failure.value);
      } else {
        ProceedWith(ctx, arms);
      }
    }

    /** Suspending the thread on a context. */
    method Suspend(ctx: SelectCtx, arms: bool)
      requires ctx.prevRead == ctx.prevWrite == Null && !ctx.timerSet && !ctx.timedout
      requires AllLive(lua.registry, ctx.ref, ctx.socket[..])
      modifies this, lua`registry, ctx, ctx.socket
      ensures Agree(Snap(), Wait(old(Snap()), old(ctx.socket[..]), old(ctx.ref), arms))
      ensures status.Yielded? ==> HoldsRefs()
      ensures slot == null || slot == ctx
    {
      Register(ctx, arms);
      RunCleanup();
      if !status.Crashed? {
        cleanup := true;
        status := Yielded;
      }
    }

    /** What follows once all sockets are collected: failure, an answer at once, or the wait. */
    method ProceedWith(ctx: SelectCtx, arms: bool)
      requires status.Running? && HoldsRefs()
      requires slot != ctx && (slot != null ==> slot.socket != ctx.socket)
      requires ctx.prevRead == ctx.prevWrite == Null && !ctx.timerSet && !ctx.timedout
      requires AllLive(lua.registry, ctx.ref, ctx.socket[..])
      modifies this, lua, ctx, ctx.socket
      ensures Agree(Snap(), Proceed(old(Snap()), old(ctx.socket[..]), old(ctx.ref), arms))
      ensures old(slot) == null && !status.Crashed? ==> HoldsRefs()
      ensures slot == null || slot == old(slot) || slot == ctx
    {
      ghost var socks := ctx.socket[..];
      var ready, err := SocketsReady(conns, ctx);
      if err {
        SelectionDeactivates(conns, ctx.socket[..], socks);
        FailCleanup(ctx, ctx.socket.Length);
        assert ctx.socket[..ctx.socket.Length] == ctx.socket[..];
        last := Raised(ProbeError);
      } else if ready > 0 {
        AnswerFrom(ctx);
      } else {
        assert ctx.socket[..] == socks;
        Suspend(ctx, arms);
      }
    }

    // -------------------------------------------------------------------------
    // Events
    // -------------------------------------------------------------------------

    /** An event of the select: the completion is queued, unless it is already. */
    method EventActivated()
      modifies this`status, this`queued, if slot == null then {} else {slot}
      ensures Agree(Snap(), Activate(old(Snap()))) && (old(HoldsRefs()) ==> HoldsRefs())
    {
      if slot == null {
        status := Crashed;
        return;
      }
      if !slot.posted {
        slot.posted := true;
        queued := queued + 1;
      }
    }

    /** nginx calls an event handler. The module's four do the same thing. */
    method CallEventHandler(h: Handler)
      modifies this`status, this`queued, if slot == null then {} else {slot}
      ensures Agree(Snap(), CallHandler(old(Snap()), h)) && (old(HoldsRefs()) ==> HoldsRefs())
    {
      match h
      case ReadUpstream => EventActivated();
      case WriteUpstream => EventActivated();
      case ReadRequest => EventActivated();
      case WriteRequest => EventActivated();
      case Null =>
      case Foreign(_) =>
    }

    /** The first timer runs out. */
    method ExpireTimer()
      modifies this`status, this`queued, this`timers, if slot == null then {} else {slot}
      ensures Agree(Snap(), TimerStep(old(Snap()))) && (old(HoldsRefs()) ==> HoldsRefs())
    {
      if timers == 0 {
        return;
      }
      if slot == null {
        status := Crashed;
        return;
      }
      timers := timers - 1;
      slot.timerSet := false;
      slot.timedout := true;
      EventActivated();
    }

    /** The posted queue is drained: the completion's handler is called. */
    method DrainQueue()
      requires HoldsRefs()
      modifies this, lua, if slot == null then {} else {slot as object, slot.socket}
      ensures Agree(Snap(), DrainStep(old(Snap()))) && (!status.Crashed? ==> HoldsRefs())
      ensures slot == null || slot == old(slot)
    {
      if queued == 0 {
        return;
      }
      if slot == null {
        status := Crashed;
        return;
      }
      TakeCompletion();
      PostCompletion();
    }

    /** nginx takes the completion from the queue. */
    method TakeCompletion()
      requires queued > 0 && slot != null
      modifies this`queued, slot
      ensures Snap() == old(Snap()).(queued := old(queued) - 1, slot := Some(old(slot.View()).(posted := false)))
      ensures old(HoldsRefs()) ==> HoldsRefs()
    {
      queued := queued - 1;
      slot.posted := false;
    }

    /** The completion's handler resumes the thread, directly or by way of the phases. */
    method PostCompletion()
      requires HoldsRefs()
      modifies this, lua, if slot == null then {} else {slot as object, slot.socket}
      ensures Agree(Snap(), Complete(old(Snap()))) && (!status.Crashed? ==> HoldsRefs())
      ensures slot == null || slot == old(slot)
    {
      if slot == null {
        status := Crashed;
        return;
      }
      if !world.luaContext {
        return;
      }
      cleanup := false;
      if world.contentPhase {
        ResumeThread();
      } else {
        resumer := SelectResume;
        RunPhases();
      }
    }

    /** nginx runs the phases of the request, and with them the resume handler that is set. */
    method RunPhases()
      requires HoldsRefs()
      modifies this, lua, if slot == null then {} else {slot as object, slot.socket}
      ensures Agree(Snap(), SelectProtocol.RunPhases(old(Snap()))) && (!status.Crashed? ==> HoldsRefs())
      ensures slot == null || slot == old(slot)
    {
      if resumer == SelectResume {
        ResumeThread();
      }
    }

    /** Marking the registered context's sockets that are ready. */
    method MarkSockets(ctx: SelectCtx)
      requires HoldsRefs() && slot == ctx
      modifies ctx.socket
      ensures HoldsRefs()
      ensures ctx.socket[..] == FlagAll(conns, old(ctx.socket[..]))
    {
      ghost var socks := ctx.socket[..];
      MarkReady(conns, ctx);
      assert Refs(ctx.socket[..]) == Refs(socks) by {
        assert forall i | 0 <= i < |socks| :: ctx.socket[i] == Flagged(conns, socks[i]);
      }
      StillLive(lua.registry, ctx.ref, socks, ctx.socket[..]);
    }

    /** The completion's work: the sockets that are ready are marked, and the thread gets its answer. */
    method ResumeThread()
      requires HoldsRefs()
      modifies this, lua, if slot == null then {} else {slot as object, slot.socket}
      ensures Agree(Snap(), Resume(old(Snap()))) && (!status.Crashed? ==> HoldsRefs())
      ensures slot == null || slot == old(slot)
    {
      if slot == null {
        status := Crashed;
        return;
      }
      var unused := lua.CreateTable();
      MarkSockets(slot);
      AnswerThread();
    }

    /** Building the answer from the registered context, undoing the select, and running the thread on. */
    method AnswerThread()
      requires HoldsRefs() && slot != null
      modifies this, lua
      ensures Agree(Snap(), GiveAnswer(old(Snap()))) && (!status.Crashed? ==> HoldsRefs())
      ensures slot == null || slot == old(slot)
    {
      AnswerFrom(slot);
      if status.Crashed? {
        return;
      }
      resumer := UsualHandler;
      resumes := resumes + 1;
      status := Running;
    }

    /** The thread is killed: its cleanup hook runs. */
    method Kill()
      requires HoldsRefs()
      modifies this, lua
      ensures Agree(Snap(), KillStep(old(Snap()))) && (!status.Crashed? ==> HoldsRefs())
      ensures slot == null || slot == old(slot)
    {
      RunCleanup();
      if !status.Crashed? {
        status := Dead;
      }
    }

    /** Between events, a registered context holds its references and the thread is suspended on it. */
    ghost predicate InOrder()
      reads this, lua, if slot == null then {} else {slot as object, slot.socket}
    {
      HoldsRefs() && Suspended(Snap())
    }

    /** One event of the worker's loop. */
    method HandleEvent(e: Event)
      requires InOrder() && Sound(lua.registry)
      requires e.Select? ==> Traversable(e.call.entries)
      modifies this, lua, if slot == null then {} else {slot as object, slot.socket}
      ensures Agree(Snap(), Step(old(Snap()), e))
      ensures !status.Crashed? ==> InOrder() && Sound(lua.registry)
      ensures slot == null || slot == old(slot) || (fresh(slot) && fresh(slot.socket))
    {
      StepSound(Snap(), e);
      StepSuspended(Snap(), e);
      Dispatch(e);
    }

    /** Each event is handled by the method for it. */
    method Dispatch(e: Event)
      requires InOrder() && Sound(lua.registry)
      requires e.Select? ==> Traversable(e.call.entries)
      modifies this, lua, if slot == null then {} else {slot as object, slot.socket}
      ensures Agree(Snap(), Step(old(Snap()), e))
      ensures !status.Crashed? ==> HoldsRefs()
      ensures slot == null || slot == old(slot) || (fresh(slot) && fresh(slot.socket))
    {
      if status.Crashed? {
        return;
      }
      match e
      case Select(call) =>
        if status.Running? {
          lua.Enter(call.args);
          Select(call);
        }
      case QueueDrains => DrainQueue();
      case Killed =>
        if !status.Dead? {
          Kill();
        }
      case _ => HandlePassing(e);
    }

    /** The worker's loop, over any events: it makes the run of the protocol. */
    method HandleEvents(es: seq<Event>)
      requires InOrder() && Sound(lua.registry)
      requires forall e | e in es && e.Select? :: Traversable(e.call.entries)
      modifies this, lua, if slot == null then {} else {slot as object, slot.socket}
      ensures Agree(Snap(), Run(old(Snap()), es))
      ensures !status.Crashed? ==> InOrder() && Sound(lua.registry)
    {
      ghost var start := Snap();
      for i := 0 to |es|
        invariant Agree(Snap(), Run(start, es[..i]))
        invariant !status.Crashed? ==> InOrder() && Sound(lua.registry)
        invariant slot == null || slot == old(slot) || (fresh(slot) && fresh(slot.socket))
      {
        ghost var here := Run(start, es[..i]);
        if status.Crashed? {
          assert es[..i] + es[i..] == es;
          RunAppend(start, es[..i], es[i..]);
          CrashedRun(here, es[i..]);
          return;
        }
        RunSnoc(start, es, i);
        HandleEvent(es[i]);
      }
      assert es[..|es|] == es;
    }

    /** What is proved of runs holds of the loop: over allowed events it keeps the process alive and safe. */
    method HandleAllowedEvents(es: seq<Event>)
      requires InOrder() && Sound(lua.registry) && Safe(Snap()) && RunAllowed(Snap(), es)
      requires forall e | e in es && e.Select? :: Traversable(e.call.entries)
      modifies this, lua, if slot == null then {} else {slot as object, slot.socket}
      ensures Snap() == Run(old(Snap()), es)
      ensures Safe(Snap()) && !status.Crashed? && (!HandlersFree(hs) ==> slot != null)
      ensures resumes + Pending(Snap()) + Kills(old(Snap()), es)
           == old(resumes) + Pending(old(Snap())) + Suspensions(old(Snap()), es)
    {
      RunsAreSafe(Snap(), es);
      ResumesBalance(Snap(), es);
      HandleEvents(es);
    }

    /**
     * A select in the code's own form, from the call over any run to the event that ends the wait: a drain resumes
     * the thread once with the answer, a kill does not, and everything else is as it was before the call.
     */
    method SelectToEnd(call: Call, es: seq<Event>, end: Event)
      requires InOrder() && IsSelect(Snap(), call, es, end)
      requires Traversable(call.entries) && forall e | e in es && e.Select? :: Traversable(e.call.entries)
      modifies this, lua
      ensures var waiting := WaitAfter(old(Snap()), call, es);
              waiting.slot.Some? && EndedBy(old(Snap()), waiting, end, Snap())
    {
      ghost var whole := [Event.Select(call)] + es + [end];
      ghost var after := Run(Snap(), whole);
      WholeSelect(Snap(), call, es, end);
      HandleEvents([Event.Select(call)] + es + [end]);
      assert Snap() == after;
    }

    /** The events that neither begin nor end a select. */
    method HandlePassing(e: Event)
      requires InOrder() && !status.Crashed? && !e.Select? && !e.QueueDrains? && !e.Killed?
      modifies this, if slot == null then {} else {slot}
      ensures Agree(Snap(), Step(old(Snap()), e))
      ensures !status.Crashed? ==> HoldsRefs()
      ensures slot == old(slot)
    {
      match e
      case UpstreamReadable(u) => CallEventHandler(ReadOf(hs, u));
      case UpstreamWritable(u) => CallEventHandler(WriteOf(hs, u));
      case RequestReadable => CallEventHandler(hs.reqRead);
      case RequestWritable => CallEventHandler(hs.reqWrite);
      case TimerExpires => ExpireTimer();
      case WorldChanges(w, cs) => world, conns := w, cs;
      case LuaRuns(handlers) =>
        if status.Running? && HandlersFree(handlers) {
          hs := handlers;
        }
    }
  }

  lemma RunSnoc(m: Machine, es: seq<Event>, i: nat)
    requires i < |es|
    ensures Run(m, es[..i + 1]) == Step(Run(m, es[..i]), es[i])
  {
    var here := Run(m, es[..i]);
    assert es[..i + 1] == es[..i] + [es[i]];
    RunAppend(m, es[..i], [es[i]]);
    assert Run(here, [es[i]]) == Run(Step(here, es[i]), []);
  }

  /** Marking each socket that is ready in a direction that was asked for. */
  method MarkReady(conns: map<nat, Conn>, ctx: SelectCtx)
    modifies ctx.socket
    ensures ctx.socket[..] == FlagAll(conns, old(ctx.socket[..]))
  {
    ghost var socks := ctx.socket[..];
    for i := 0 to ctx.socket.Length
      invariant forall j | 0 <= j < i :: ctx.socket[j] == Flagged(conns, socks[j])
      invariant forall j | i <= j < |socks| :: ctx.socket[j] == socks[j]
    {
      var s := ctx.socket[i];
      var c := ConnOf(conns, s.conn);
      if s.read && c.readReady {
        ctx.socket[i] := ctx.socket[i].(readReady := true);
      }
      if s.write && c.writeReady {
        ctx.socket[i] := ctx.socket[i].(writeReady := true);
      }
    }
  }

  /** One more socket's handler; once one is missing, restoring all of them is out of the question. */
  lemma RestoreStops(hs: Handlers, prev: Handler, socks: seq<Sock>, i: nat)
    requires i < |socks| && Restore(hs, prev, socks[..i]).Some?
    ensures var s, before := socks[i], Restore(hs, prev, socks[..i]).value;
            if (if s.downstream then prev else s.prevRead).Null? then Restore(hs, prev, socks).None?
            else Restore(hs, prev, socks[..i + 1])
                 == Some(if s.downstream then before.(reqRead := prev)
                         else before.(upRead := before.upRead[s.up := s.prevRead]))
  {
    assert socks[..i + 1][..i] == socks[..i];
    if (if socks[i].downstream then prev else socks[i].prevRead).Null? {
      StaysFailed(hs, prev, socks, i + 1);
    }
  }

  lemma {:induction false} StaysFailed(hs: Handlers, prev: Handler, socks: seq<Sock>, n: nat)
    requires n <= |socks| && Restore(hs, prev, socks[..n]).None?
    ensures Restore(hs, prev, socks).None?
  {
    if n < |socks| {
      assert socks[..|socks| - 1][..n] == socks[..n];
      StaysFailed(hs, prev, socks[..|socks| - 1], n);
    } else {
      assert socks[..n] == socks;
    }
  }

  lemma ReleaseNext(g: Registry, socks: seq<Sock>, i: nat, own: nat)
    requires i < |socks| && NoRepeats([own] + Refs(socks))
    ensures ReleaseAll(g, Refs(socks[i..])) == ReleaseAll(Release(g, socks[i].ref), Refs(socks[i + 1..]))
    ensures socks[i].ref != own && forall j | i < j < |socks| :: socks[j].ref != socks[i].ref
  {
    assert Refs(socks[i..])[1..] == Refs(socks[i + 1..]);
    var all := [own] + Refs(socks);
    assert all[0] == own && forall j | 0 <= j < |socks| :: all[j + 1] == socks[j].ref;
  }
}
