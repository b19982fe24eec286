/** Selects on one concrete socket, where the code falls short. */
module SelectExamples {
  import opened Prelude
  import opened SelectLua
  import opened SelectTypes
  import opened SelectProtocol
  import opened SelectHandlers
  import opened SelectRuns

  /** A request in its content phase, with one upstream, connected and idle. The table 5 is its socket. */
  const WORLD := World(
    0, 9, false, true, true, true, true,
    map[0 := Upstream(Some(1), false, 0, false, false, false, false)], map[5 := 0])

  const HANDLERS := Handlers(map[0 := Foreign(1)], map[0 := Foreign(2)], Foreign(3), Foreign(4))

  const START := Machine(
    WORLD, map[], HANDLERS, Registry(map[], [], 0), None, 0, 0, false, UsualHandler, Running, Nothing, 0)

  const SOCKET := VTable(5)

  /** `select {socket}` */
  const READ := Call([VTable(6)], [(VNum(1.0), SOCKET)])

  /** `select {[socket] = mode}` */
  function Mode(mode: string): Call {
    Call([VTable(6)], [(SOCKET, VStr(mode, None))])
  }

  function OnlySocket(read: bool, write: bool): Sock {
    Sock(0, 1, false, read, write, 2, false, false, Null, Null)
  }

  lemma Collects(call: Call, read: bool, write: bool)
    requires call.args == [VTable(6)] && |call.entries| == 1
    requires PickEntry(WORLD, call.entries[0].0, call.entries[0].1) == Ok(Picked(SOCKET, 0, read, write))
    ensures CollectFor(START, call)
         == Collected([OnlySocket(read, write)], Refer(Refer(START.reg, VData(0)), SOCKET), None)
    ensures Waits(START, call) && !Arms(call)
  {
    var es, reg := call.entries, Refer(START.reg, VData(0));
    assert es[1..] == [];
    assert Collect(WORLD, es, [], reg)
        == Collect(WORLD, [], [] + [OnlySocket(read, write)], Refer(reg, SOCKET));
  }

  /** What becomes of the handlers when a single socket is selected and the wait ends. */
  lemma UndoneOne(read: bool, write: bool)
    ensures Install(HANDLERS, [OnlySocket(read, write)])
         == InstallOne(Installed(HANDLERS, Null, Null, []), OnlySocket(read, write))
    ensures Undone(HANDLERS, [OnlySocket(read, write)])
         == if !read then None
            else Some(HANDLERS.(upWrite := if write then map[0 := WriteUpstream] else HANDLERS.upWrite))
  {
    var s := OnlySocket(read, write);
    var a := InstallOne(Installed(HANDLERS, Null, Null, []), s);
    assert [s][..0] == [] && Install(HANDLERS, []) == Installed(HANDLERS, Null, Null, []);
    var t := a.socks[0];
    assert a.socks == [t] && [t][..0] == [] && Restore(a.hs, a.prevRead, []) == Some(a.hs);
    assert !read ==> t.prevRead.Null?;
    if read {
      assert t.prevRead == Foreign(1) && a.hs.upRead == HANDLERS.upRead[0 := ReadUpstream];
      assert Restore(a.hs, a.prevRead, [t]) == Some(a.hs.(upRead := a.hs.upRead[0 := Foreign(1)]));
      assert a.hs.upRead[0 := Foreign(1)] == HANDLERS.upRead;
    }
    assert write ==> a.hs.upWrite == map[0 := WriteUpstream];
  }

  lemma Suspended(call: Call, read: bool, write: bool)
    requires call.args == [VTable(6)] && |call.entries| == 1
    requires PickEntry(WORLD, call.entries[0].0, call.entries[0].1) == Ok(Picked(SOCKET, 0, read, write))
    ensures Selecting(START, call, Step(START, Select(call)))
    ensures SocksOf(START, call) == [OnlySocket(read, write)]
    ensures var y := Step(START, Select(call));
            && y.queued == 0 && y.world == WORLD
            && y.hs == InstallOne(Installed(HANDLERS, Null, Null, []), OnlySocket(read, write)).hs
  {
    Collects(call, read, write);
    SelectWaits(START, call);
    UndoneOne(read, write);
  }

  /** The socket has an event of a kind that was asked for, and one completion is queued. */
  lemma Fired(call: Call, read: bool, write: bool, e: Event)
    requires call.args == [VTable(6)] && |call.entries| == 1
    requires PickEntry(WORLD, call.entries[0].0, call.entries[0].1) == Ok(Picked(SOCKET, 0, read, write))
    requires (read && e == UpstreamReadable(0)) || (write && e == UpstreamWritable(0))
    ensures var m := Step(Step(START, Select(call)), e);
            Selecting(START, call, m) && m.queued == 1 && m.world.luaContext
  {
    var y := Step(START, Select(call));
    Suspended(call, read, write);
    assert Wakes(y, e);
    StaysWaiting(y, y, e);
  }

  lemma RunOfThree(m: Machine, a: Event, b: Event, c: Event)
    ensures Run(m, [a, b, c]) == Step(Step(Step(m, a), b), c)
  {
    assert [a, b, c][1..] == [b, c] && [b, c][1..] == [c] && [c][1..] == [];
    var m1 := Step(m, a);
    var m2 := Step(m1, b);
    assert Run(m2, [c]) == Run(Step(m2, c), []);
    assert Run(m1, [b, c]) == Run(m2, [c]);
  }

  lemma RunOfFour(m: Machine, a: Event, b: Event, c: Event, d: Event)
    ensures Run(m, [a, b, c, d]) == Step(Step(Step(Step(m, a), b), c), d)
  {
    assert [a, b, c, d][1..] == [b, c, d];
    RunOfThree(Step(m, a), b, c, d);
  }

  /** A socket selected for reading becomes readable, the thread is killed, and the worker drains its queue. */
  lemma KilledWhileQueued()
    ensures Waits(START, READ) && Restorable(HANDLERS, SocksOf(START, READ))
    ensures Run(START, [Select(READ), UpstreamReadable(0), Killed, QueueDrains]).status.Crashed?
  {
    Collects(READ, true, false);
    Fired(READ, true, false, UpstreamReadable(0));
    RunOfFour(START, Select(READ), UpstreamReadable(0), Killed, QueueDrains);
    KillCrashesIff(START, READ, Step(Step(START, Select(READ)), UpstreamReadable(0)));
  }

  lemma ModePicks(mode: string)
    requires mode == "w" || mode == "rw"
    ensures PickEntry(WORLD, SOCKET, VStr(mode, None)) == Ok(Picked(SOCKET, 0, mode == "rw", true))
  {
    assert HasChar(mode[1..], 'w') <==> mode == "rw";
    assert HasChar(mode, 'w');
    assert HasChar(mode, 'r') <==> mode == "rw";
  }

  /** Selected for writing only, the process aborts as soon as the thread is to be resumed. */
  lemma WriteOnlyAborts()
    ensures Waits(START, Mode("w"))
    ensures Run(START, [Select(Mode("w")), UpstreamWritable(0), QueueDrains]).status.Crashed?
  {
    var call := Mode("w");
    ModePicks("w");
    Collects(call, false, true);
    Fired(call, false, true, UpstreamWritable(0));
    UndoneOne(false, true);
    RunOfThree(START, Select(call), UpstreamWritable(0), QueueDrains);
    EndUndoes(START, call, Step(Step(START, Select(call)), UpstreamWritable(0)), QueueDrains);
  }

  /** Selected both ways, the thread is resumed; and then the socket becomes writable. */
  lemma ReadWriteCrashesLater()
    ensures Waits(START, Mode("rw"))
    ensures var resumed := Run(START, [Select(Mode("rw")), UpstreamReadable(0), QueueDrains]);
            !resumed.status.Crashed? && resumed.slot.None?
            && Step(resumed, UpstreamWritable(0)).status.Crashed?
  {
    var call := Mode("rw");
    ModePicks("rw");
    Collects(call, true, true);
    Fired(call, true, true, UpstreamReadable(0));
    UndoneOne(true, true);
    RunOfThree(START, Select(call), UpstreamReadable(0), QueueDrains);
    var m := Step(Step(START, Select(call)), UpstreamReadable(0));
    EndUndoes(START, call, m, QueueDrains);
    WriteHandlerLeftBehind(START, call, m, QueueDrains, 0);
  }
}
