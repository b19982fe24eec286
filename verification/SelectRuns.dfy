/** Whole runs of the select protocol. */
module SelectRuns {
  import opened Prelude
  import opened SelectLua
  import opened SelectTypes
  import opened SelectProtocol
  import opened SelectHandlers
  import opened SelectCollect

  // ---------------------------------------------------------------------------
  // Between selects, and during one
  // ---------------------------------------------------------------------------

  /** No select is in progress: nothing of the module's is registered, queued, armed or installed. */
  ghost predicate Idle(m: Machine) {
    && (m.status.Running? || m.status.Dead?)
    && m.slot.None? && m.queued == 0 && m.timers == 0 && !m.cleanup
    && HandlersFree(m.hs) && Sound(m.reg)
  }

  function SocksOf(m: Machine, call: Call): seq<Sock> {
    CollectFor(m, call).socks
  }

  /** The call is in order and every entry names a usable socket. */
  predicate Accepted(m: Machine, call: Call) {
    CheckCall(m.world, call).None? && CollectFor(m, call).failure.None? && !ProbeFails(m.conns, SocksOf(m, call))
  }

  /** The call suspends the thread. */
  ghost predicate Waits(m: Machine, call: Call) {
    Idle(m) && m.status.Running? && Accepted(m, call) && !BytesWaiting(m.conns, SocksOf(m, call))
  }

  /** `m` is a state reached from `y`, where a select had just suspended the thread, and it is still suspended. */
  ghost predicate Waiting(y: Machine, m: Machine) {
    && y.status.Yielded? && y.slot.Some? && y.cleanup && y.slot.value.posted == y.slot.value.timedout == false
    && m.status.Yielded? && m.slot.Some? && m.cleanup
    && m.slot.value == y.slot.value.(posted := m.slot.value.posted, timerSet := m.slot.value.timerSet,
                                     timedout := m.slot.value.timedout)
    && m.hs == y.hs && m.reg == y.reg && m.resumer == y.resumer && m.last == y.last && m.resumes == y.resumes
    && m.queued == (if m.slot.value.posted then 1 else 0)
    && m.timers == (if m.slot.value.timerSet then 1 else 0)
    && m.slot.value.timerSet == (y.slot.value.timerSet && !m.slot.value.timedout)
    && (m.slot.value.timedout ==> y.slot.value.timerSet)
  }

  /** A state while the thread waits in a given call. */
  ghost predicate Selecting(m0: Machine, call: Call, m: Machine) {
    Waits(m0, call) && Waiting(Step(m0, Select(call)), m)
  }

  /** The event ends the wait: a kill, or draining the completion while the request has its Lua context. */
  predicate Finishes(m: Machine, e: Event) {
    e.Killed? || (e.QueueDrains? && m.queued == 1 && m.world.luaContext)
  }

  /** None of the events ends the wait. The queue may be drained any number of times. */
  predicate GoesOn(m: Machine, es: seq<Event>)
    decreases es
  {
    es == [] || (!Finishes(m, es[0]) && GoesOn(Step(m, es[0]), es[1..]))
  }

  /** The events since the queue was last drained. */
  function LastTurn(es: seq<Event>): (turn: seq<Event>)
    ensures |turn| <= |es| && es[|es| - |turn|..] == turn
    ensures forall e | e in turn :: !e.QueueDrains?
    ensures |turn| < |es| ==> es[|es| - |turn| - 1].QueueDrains?
  {
    if es == [] || es[|es| - 1].QueueDrains? then []
    else LastTurn(es[..|es| - 1]) + [es[|es| - 1]]
  }

  function TurnsBefore(es: seq<Event>): seq<Event> {
    es[..|es| - |LastTurn(es)|]
  }

  /** The event calls one of the handlers the select installed, or fires its timer. */
  predicate Wakes(m: Machine, e: Event) {
    match e
    case UpstreamReadable(u) => OfSelect(ReadOf(m.hs, u))
    case UpstreamWritable(u) => OfSelect(WriteOf(m.hs, u))
    case RequestReadable => OfSelect(m.hs.reqRead)
    case RequestWritable => OfSelect(m.hs.reqWrite)
    case TimerExpires => m.slot.Some? && m.slot.value.timerSet
    case _ => false
  }

  predicate AnyWakes(m: Machine, es: seq<Event>) {
    exists i :: 0 <= i < |es| && Wakes(m, es[i])
  }

  /** A handler or the timer fired since the queue was last drained. */
  predicate Woken(m: Machine, es: seq<Event>) {
    AnyWakes(Run(m, TurnsBefore(es)), LastTurn(es))
  }

  predicate Expires(m: Machine, es: seq<Event>) {
    m.slot.Some? && m.slot.value.timerSet && TimerExpires in es
  }

  lemma SelectWaits(m: Machine, call: Call)
    requires Waits(m, call)
    ensures Step(m, Select(call))
         == Wait(m.(reg := CollectFor(m, call).reg), SocksOf(m, call), RefOf(m.reg), Arms(call))
    ensures Waiting(Step(m, Select(call)), Step(m, Select(call)))
    ensures Step(m, Select(call)).slot.value.timerSet == Arms(call)
  {
  }

  /** An event other than the end of the wait leaves the thread waiting, with one completion queued at most. */
  lemma StaysWaiting(y: Machine, m: Machine, e: Event)
    requires Waiting(y, m) && !Finishes(m, e)
    ensures Waiting(y, Step(m, e))
    ensures Step(m, e).slot.value.posted == if e.QueueDrains? then false else m.slot.value.posted || Wakes(m, e)
    ensures Step(m, e).slot.value.timedout == (m.slot.value.timedout || (m.slot.value.timerSet && e == TimerExpires))
  {
  }

  lemma SameWakes(m: Machine, after: Machine, es: seq<Event>)
    requires m.slot.Some? && after.slot.Some? && after.hs == m.hs && after.slot.value.timerSet == m.slot.value.timerSet
    ensures AnyWakes(after, es) == AnyWakes(m, es) && Expires(after, es) == Expires(m, es)
  {
    assert forall i | 0 <= i < |es| :: Wakes(after, es[i]) == Wakes(m, es[i]);
  }

  lemma {:induction false} GoesOnAppend(m: Machine, a: seq<Event>, b: seq<Event>)
    ensures GoesOn(m, a + b) <==> GoesOn(m, a) && GoesOn(Run(m, a), b)
    decreases a
  {
    if a == [] {
      assert a + b == b;
    } else {
      assert (a + b)[0] == a[0] && (a + b)[1..] == a[1..] + b;
      GoesOnAppend(Step(m, a[0]), a[1..], b);
    }
  }

  /** Any run either leaves the wait going on, or has a first event that ends it. */
  lemma {:induction false} FirstFinish(m: Machine, es: seq<Event>) returns (i: nat)
    requires !GoesOn(m, es)
    ensures i < |es| && GoesOn(m, es[..i]) && Finishes(Run(m, es[..i]), es[i])
    decreases es
  {
    if Finishes(m, es[0]) {
      i := 0;
    } else {
      var j := FirstFinish(Step(m, es[0]), es[1..]);
      i := j + 1;
      assert es[..i][0] == es[0] && es[..i][1..] == es[1..][..j];
    }
  }

  /** Within one turn of the loop, a completion is queued exactly if one was or something woke the select. */
  lemma {:induction false} TurnWakes(y: Machine, m: Machine, es: seq<Event>)
    requires Waiting(y, m) && GoesOn(m, es) && forall e | e in es :: !e.QueueDrains?
    ensures Waiting(y, Run(m, es))
    ensures Run(m, es).slot.value.posted == (m.slot.value.posted || AnyWakes(m, es))
    decreases es
  {
    if es != [] {
      StaysWaiting(y, m, es[0]);
      TurnWakes(y, Step(m, es[0]), es[1..]);
      assert AnyWakes(m, es) <==> Wakes(m, es[0]) || AnyWakes(m, es[1..]) by {
        if AnyWakes(m, es[1..]) {
          var i :| 0 <= i < |es[1..]| && Wakes(m, es[1..][i]);
          assert Wakes(m, es[i + 1]);
        }
        if AnyWakes(m, es) && !Wakes(m, es[0]) {
          var i :| 0 <= i < |es| && Wakes(m, es[i]);
          assert es[1..][i - 1] == es[i];
        }
      }
      if Step(m, es[0]).slot.value.timerSet == m.slot.value.timerSet {
        SameWakes(m, Step(m, es[0]), es[1..]);
      }
    }
  }

  lemma {:induction false} StillWaiting(y: Machine, m: Machine, es: seq<Event>)
    requires Waiting(y, m) && GoesOn(m, es)
    ensures Waiting(y, Run(m, es))
    ensures Run(m, es).slot.value.timedout == (m.slot.value.timedout || Expires(m, es))
    decreases es
  {
    if es != [] {
      StaysWaiting(y, m, es[0]);
      StillWaiting(y, Step(m, es[0]), es[1..]);
      assert TimerExpires in es <==> es[0] == TimerExpires || TimerExpires in es[1..];
    }
  }

  /**
   * Over any run that does not end the wait, drains included that find nothing or whose completion is dropped:
   * the thread stays suspended and nothing else changes; the timer has expired if it was set and ran out; and a
   * completion is queued exactly if something woke the select since the last drain.
   */
  lemma RunsWaiting(y: Machine, es: seq<Event>)
    requires Waiting(y, y) && GoesOn(y, es)
    ensures Waiting(y, Run(y, es))
    ensures Run(y, es).slot.value.posted == Woken(y, es)
    ensures Run(y, es).slot.value.timedout == Expires(y, es)
  {
    var before, turn := TurnsBefore(es), LastTurn(es);
    assert es == before + turn;
    StillWaiting(y, y, es);
    GoesOnAppend(y, before, turn);
    RunAppend(y, before, turn);
    StillWaiting(y, y, before);
    LastDrain(y, before);
    TurnWakes(y, Run(y, before), turn);
  }

  lemma LastDrain(y: Machine, es: seq<Event>)
    requires Waiting(y, y) && GoesOn(y, es) && (es != [] ==> es[|es| - 1].QueueDrains?)
    ensures Waiting(y, Run(y, es)) && !Run(y, es).slot.value.posted
  {
    if es != [] {
      var front, last := es[..|es| - 1], es[|es| - 1];
      assert es == front + [last];
      GoesOnAppend(y, front, [last]);
      RunAppend(y, front, [last]);
      StillWaiting(y, y, front);
      StaysWaiting(y, Run(y, front), last);
      assert Run(Run(y, front), [last]) == Run(Step(Run(y, front), last), []);
    }
  }

  lemma {:induction false} RunAppend(m: Machine, a: seq<Event>, b: seq<Event>)
    ensures Run(m, a + b) == Run(Run(m, a), b)
    decreases a
  {
    if a == [] {
      assert a + b == b;
    } else {
      assert (a + b)[0] == a[0] && (a + b)[1..] == a[1..] + b;
      RunAppend(Step(m, a[0]), a[1..], b);
    }
  }

  lemma {:induction false} CrashedRun(m: Machine, es: seq<Event>)
    requires m.status.Crashed?
    ensures Run(m, es) == m
    decreases es
  {
    if es != [] {
      CrashedRun(m, es[1..]);
    }
  }

  // ---------------------------------------------------------------------------
  // The end of a wait
  // ---------------------------------------------------------------------------

  lemma FlagsKeepHandlers(hs: Handlers, prev: Handler, socks: seq<Sock>, conns: map<nat, Conn>)
    ensures Restore(hs, prev, FlagAll(conns, socks)) == Restore(hs, prev, socks)
    ensures Refs(FlagAll(conns, socks)) == Refs(socks)
  {
    if socks != [] {
      var n := |socks| - 1;
      assert FlagAll(conns, socks)[..n] == FlagAll(conns, socks[..n]);
      FlagsKeepHandlers(hs, prev, socks[..n], conns);
    }
  }

  /** Everything the select took or changed is as it was before the call. */
  ghost predicate AsBefore(before: Machine, after: Machine) {
    Idle(after) && after.hs == before.hs && after.reg.live == before.reg.live
  }

  /** Discarding while waiting puts everything back, for restorable sockets. */
  lemma DiscardPutsBack(m0: Machine, call: Call, m: Machine, socks: seq<Sock>, conns: map<nat, Conn>)
    requires Selecting(m0, call, m)
    requires socks == m.slot.value.socks || socks == FlagAll(conns, m.slot.value.socks)
    requires Undone(m0.hs, SocksOf(m0, call)).Some?
    ensures var d := Discard(m.(slot := Some(m.slot.value.(socks := socks))));
            && d == m.(timers := 0, hs := Undone(m0.hs, SocksOf(m0, call)).value, reg := d.reg, slot := None)
            && Sound(d.reg) && d.reg.live == m0.reg.live
  {
    var c := CollectFor(m0, call);
    CallCollects(m0, call);
    SelectWaits(m0, call);
    SameRefs(m0.hs, c.socks);
    FlagsKeepHandlers(m.hs, m.slot.value.prevRead, m.slot.value.socks, conns);
    ReleaseTaken(m0.reg, c.reg, RefOf(m0.reg), Refs(c.socks), SocketsOf(m0.world, call.entries[..|c.socks|]),
                 Refer(m0.reg, VData(0)));
  }

  /** If the handlers cannot be put back, discarding aborts the process. */
  lemma DiscardAborts(m0: Machine, call: Call, m: Machine, socks: seq<Sock>, conns: map<nat, Conn>)
    requires Selecting(m0, call, m)
    requires socks == m.slot.value.socks || socks == FlagAll(conns, m.slot.value.socks)
    requires Undone(m0.hs, SocksOf(m0, call)).None?
    ensures Discard(m.(slot := Some(m.slot.value.(socks := socks)))).status.Crashed?
  {
    SelectWaits(m0, call);
    FlagsKeepHandlers(m.hs, m.slot.value.prevRead, m.slot.value.socks, conns);
  }

  lemma AskedFor(m: Machine, call: Call)
    requires Sound(m.reg)
    ensures forall i | 0 <= i < |SocksOf(m, call)| :: SocksOf(m, call)[i].read || SocksOf(m, call)[i].write
  {
    CallCollects(m, call);
    forall i | 0 <= i < |SocksOf(m, call)|
      ensures SocksOf(m, call)[i].read || SocksOf(m, call)[i].write
    {
      assert FilledFrom(m.world, call.entries[i], SocksOf(m, call)[i]);
    }
  }

  /** What resuming makes of a waiting state. */
  function Answered(m: Machine): Answer
    requires m.slot.Some?
  {
    AnswerOf(FlagAll(m.conns, m.slot.value.socks), m.reg.live, m.slot.value.timedout)
  }

  /** Draining discards the select and resumes the thread with the answer, before or in the content phase. */
  lemma DrainIs(m: Machine)
    requires m.slot.Some? && m.queued == 1 && m.world.luaContext
    ensures var d := Discard(m.(slot := Some(m.slot.value.(socks := FlagAll(m.conns, m.slot.value.socks)))));
            if d.status.Crashed? then DrainStep(m).status.Crashed?
            else DrainStep(m) == d.(queued := 0, cleanup := false, resumer := UsualHandler, status := Running,
                                    resumes := m.resumes + 1, last := Returned(Answered(m)))
  {
  }

  lemma DrainPutsBack(m0: Machine, call: Call, m: Machine)
    requires Selecting(m0, call, m) && Finishes(m, QueueDrains)
    requires Undone(m0.hs, SocksOf(m0, call)).Some?
    ensures var d := Step(m, QueueDrains);
            && d.slot.None? && d.queued == 0 && d.timers == 0 && !d.cleanup && d.status.Running?
            && d.hs == Undone(m0.hs, SocksOf(m0, call)).value
            && Sound(d.reg) && d.reg.live == m0.reg.live
            && d.resumes == m.resumes + 1 && d.last == Returned(Answered(m))
  {
    DrainIs(m);
    DiscardPutsBack(m0, call, m, FlagAll(m.conns, m.slot.value.socks), m.conns);
  }

  lemma KillPutsBack(m0: Machine, call: Call, m: Machine)
    requires Selecting(m0, call, m)
    requires Undone(m0.hs, SocksOf(m0, call)).Some?
    ensures var d := Step(m, Killed);
            && d.slot.None? && d.queued == m.queued && d.timers == 0 && !d.cleanup && d.status.Dead?
            && d.hs == Undone(m0.hs, SocksOf(m0, call)).value
            && Sound(d.reg) && d.reg.live == m0.reg.live
            && d.resumes == m.resumes
  {
    DiscardPutsBack(m0, call, m, m.slot.value.socks, m.conns);
    assert m.(slot := Some(m.slot.value.(socks := m.slot.value.socks))) == m;
  }

  /** The state reached by any events that do not end the wait. */
  lemma WaitGoesOn(m0: Machine, call: Call, es: seq<Event>)
    requires Waits(m0, call) && GoesOn(Step(m0, Select(call)), es)
    ensures var y := Step(m0, Select(call));
            var m := Run(y, es);
            Selecting(m0, call, m) && m.slot.Some? && m.status.Yielded?
            && m.queued == (if Woken(y, es) then 1 else 0) && m.resumes == m0.resumes
            && (m.slot.value.timedout <==> Arms(call) && TimerExpires in es)
  {
    SelectWaits(m0, call);
    RunsWaiting(Step(m0, Select(call)), es);
  }

  /** The end of a wait: an abort if the handlers cannot be put back, and otherwise everything is undone. */
  lemma EndUndoes(m0: Machine, call: Call, m: Machine, e: Event)
    requires Selecting(m0, call, m) && Finishes(m, e)
    ensures var d, undone := Step(m, e), Undone(m0.hs, SocksOf(m0, call));
            if undone.None? then d.status.Crashed?
            else !d.status.Crashed? && d.slot.None? && d.timers == 0
                 && d.hs == undone.value && d.reg.live == m0.reg.live
  {
    var ctx := m.slot.value;
    if Undone(m0.hs, SocksOf(m0, call)).None? {
      if e.QueueDrains? {
        DrainIs(m);
        DiscardAborts(m0, call, m, FlagAll(m.conns, ctx.socks), m.conns);
      } else {
        DiscardAborts(m0, call, m, ctx.socks, m.conns);
        assert m.(slot := Some(ctx.(socks := ctx.socks))) == m;
      }
    } else if e.QueueDrains? {
      DrainPutsBack(m0, call, m);
    } else {
      KillPutsBack(m0, call, m);
    }
  }

  /** The state in which the thread waits, after the call and a run. */
  function WaitAfter(m0: Machine, call: Call, es: seq<Event>): Machine {
    Run(Step(m0, Select(call)), es)
  }

  /** What the end of a wait leaves: all is as before the call, and a drain has resumed the thread with its answer. */
  ghost predicate EndedBy(m0: Machine, m: Machine, e: Event, d: Machine)
    requires m.slot.Some?
  {
    && AsBefore(m0, d.(queued := 0))
    && if e.QueueDrains? then
         d.queued == 0 && d.status.Running? && d.resumes == m0.resumes + 1 && d.last == Returned(Answered(m))
       else
         d.queued == m.queued && d.status.Dead? && d.resumes == m0.resumes
  }

  lemma FinishPutsBack(m0: Machine, call: Call, m: Machine, e: Event)
    requires Selecting(m0, call, m) && Restorable(m0.hs, SocksOf(m0, call)) && Finishes(m, e)
    ensures m.resumes == m0.resumes ==> EndedBy(m0, m, e, Step(m, e))
  {
    RestorableIsUndone(m0.hs, SocksOf(m0, call));
    if e.QueueDrains? {
      DrainPutsBack(m0, call, m);
    } else {
      KillPutsBack(m0, call, m);
    }
  }

  /**
   * One select from call to end, over any run in between. While the thread waits it is not resumed, and one
   * completion is queued if a handler or the timer fired since the queue was last drained, and none otherwise.
   * The first event that ends the wait is a drain, which resumes the thread once, or a kill, which cleans up
   * instead; either way every handler, every live reference, the timer and the context pointer are as they were
   * before the call. (A kill does not take back a queued completion.)
   */
  lemma SelectRoundTrip(m0: Machine, call: Call, es: seq<Event>, e: Event)
    requires Waits(m0, call) && Restorable(m0.hs, SocksOf(m0, call))
    requires GoesOn(Step(m0, Select(call)), es)
    ensures var m := WaitAfter(m0, call, es);
            && m.slot.Some? && m.status.Yielded? && m.resumes == m0.resumes
            && m.queued == (if Woken(Step(m0, Select(call)), es) then 1 else 0)
    ensures var m := WaitAfter(m0, call, es);
            Finishes(m, e) ==> EndedBy(m0, m, e, Step(m, e))
  {
    WaitGoesOn(m0, call, es);
    if Finishes(WaitAfter(m0, call, es), e) {
      FinishPutsBack(m0, call, WaitAfter(m0, call, es), e);
    }
  }

  /** A whole select: the thread is suspended, the run lets the wait go on, and the last event ends it. */
  ghost predicate IsSelect(m0: Machine, call: Call, es: seq<Event>, e: Event) {
    && Waits(m0, call) && Restorable(m0.hs, SocksOf(m0, call))
    && GoesOn(Step(m0, Select(call)), es) && Finishes(WaitAfter(m0, call, es), e)
  }

  lemma WholeSelect(m0: Machine, call: Call, es: seq<Event>, e: Event)
    requires IsSelect(m0, call, es, e)
    ensures var m, d := WaitAfter(m0, call, es), Run(m0, [Select(call)] + es + [e]);
            m.slot.Some? && !d.status.Crashed? && EndedBy(m0, m, e, d)
  {
    var first, m := [Select(call)] + es, WaitAfter(m0, call, es);
    SelectRoundTrip(m0, call, es, e);
    assert first[0] == Select(call) && first[1..] == es;
    RunAppend(m0, first, [e]);
    assert Run(m, [e]) == Run(Step(m, e), []);
  }

  /**
   * For any sockets the call accepts, the end of the wait leaves a live process with every handler as it was
   * before the call exactly if the sockets are restorable; and then the registry is as it was too.
   */
  lemma EndRestoresIff(m0: Machine, call: Call, m: Machine, e: Event)
    requires Selecting(m0, call, m)
    requires Finishes(m, e)
    ensures !Step(m, e).status.Crashed? && Step(m, e).hs == m0.hs <==> Restorable(m0.hs, SocksOf(m0, call))
    ensures !Step(m, e).status.Crashed? ==>
              Step(m, e).slot.None? && Step(m, e).timers == 0 && Step(m, e).reg.live == m0.reg.live
  {
    var socks := SocksOf(m0, call);
    AskedFor(m0, call);
    RestoreIff(m0.hs, socks);
    EndUndoes(m0, call, m, e);
  }

  // ---------------------------------------------------------------------------
  // What the caller is told
  // ---------------------------------------------------------------------------

  /** The directions asked for in an entry of the call that are ready, as a text, if there are any. */
  function EntryMode(w: World, conns: map<nat, Conn>, e: (Val, Val)): Option<Val> {
    match PickEntry(w, e.0, e.1)
    case Err(_) => None
    case Ok(p) =>
      var u := UpOf(w, p.up);
      var c := if u.conn.Some? then ConnOf(conns, u.conn.value) else Conn(0, false, false, false, false);
      if p.read && c.readReady && p.write && c.writeReady then Some(VStr("rw", None))
      else if p.read && c.readReady then Some(VStr("r", None))
      else if p.write && c.writeReady then Some(VStr("w", None))
      else None
  }

  /** The ready entries of the call in order: each one's socket, with the directions. */
  function ReadyEntries(w: World, conns: map<nat, Conn>, es: seq<(Val, Val)>): seq<(Val, Val)> {
    if es == [] then []
    else
      var last := es[|es| - 1];
      var mode := EntryMode(w, conns, last);
      ReadyEntries(w, conns, es[..|es| - 1]) + if mode.Some? then [(SocketOf(w, last), mode.value)] else []
  }

  /** A socket marked ready in the directions that were asked for and are ready now, held under its entry's table. */
  predicate MarkedFor(w: World, conns: map<nat, Conn>, live: map<nat, Val>, e: (Val, Val), s: Sock, marked: Sock) {
    var c := ConnOf(conns, s.conn);
    && marked.readReady == (s.read && c.readReady) && marked.writeReady == (s.write && c.writeReady)
    && EntryMode(w, conns, e) == (if IsReady(marked) then Some(ModeText(marked)) else None)
    && Held(live, marked.ref) == SocketOf(w, e) && SocketOf(w, e).VTable?
  }

  lemma WaitingSlot(m0: Machine, call: Call, m: Machine, i: nat)
    requires Selecting(m0, call, m) && i < |SocksOf(m0, call)|
    ensures |m.slot.value.socks| == |SocksOf(m0, call)|
    ensures var s, t := SocksOf(m0, call)[i], m.slot.value.socks[i];
            t.ref == s.ref && t.conn == s.conn && t.read == s.read && t.write == s.write
            && !t.readReady && !t.writeReady
    ensures m.reg == CollectFor(m0, call).reg
  {
    SelectWaits(m0, call);
    InstallSlots(m0.hs, SocksOf(m0, call), i);
  }

  lemma HeldSocket(m0: Machine, call: Call, i: nat)
    requires Sound(m0.reg) && CollectFor(m0, call).failure.None? && i < |call.entries|
    ensures |SocksOf(m0, call)| == |call.entries|
    ensures FilledFrom(m0.world, call.entries[i], SocksOf(m0, call)[i])
    ensures Held(CollectFor(m0, call).reg.live, SocksOf(m0, call)[i].ref) == SocketOf(m0.world, call.entries[i])
  {
    var c := CollectFor(m0, call);
    CallCollects(m0, call);
    assert Refs(c.socks)[i] == c.socks[i].ref && c.socks[i].ref in Refs(c.socks);
    assert SocketsOf(m0.world, call.entries[..|c.socks|])[i] == SocketOf(m0.world, call.entries[i]);
  }

  /** How `resume` marks each socket. */
  lemma MarkedSocket(m0: Machine, call: Call, m: Machine, i: nat)
    requires Selecting(m0, call, m) && i < |call.entries|
    ensures |SocksOf(m0, call)| == |m.slot.value.socks| == |call.entries|
    ensures MarkedFor(m0.world, m.conns, m.reg.live, call.entries[i], SocksOf(m0, call)[i],
                      Flagged(m.conns, m.slot.value.socks[i]))
  {
    HeldSocket(m0, call, i);
    WaitingSlot(m0, call, m, i);
  }

  /** No socket is named twice in the call. */
  predicate NamesDistinct(w: World, es: seq<(Val, Val)>) {
    forall i, j | 0 <= i < j < |es| :: SocketOf(w, es[i]) != SocketOf(w, es[j])
  }

  lemma {:induction false} NoneReady(socks: seq<Sock>)
    ensures Ready(socks) == [] <==> forall i | 0 <= i < |socks| :: !IsReady(socks[i])
  {
    if socks != [] {
      NoneReady(socks[..|socks| - 1]);
    }
  }

  lemma NoneMarked(m0: Machine, call: Call, m: Machine)
    requires Selecting(m0, call, m)
    ensures Ready(FlagAll(m.conns, m.slot.value.socks)) == []
       <==> forall i | 0 <= i < |call.entries| :: EntryMode(m0.world, m.conns, call.entries[i]).None?
  {
    var marked := FlagAll(m.conns, m.slot.value.socks);
    CallCollects(m0, call);
    SelectWaits(m0, call);
    forall i | 0 <= i < |call.entries|
      ensures IsReady(marked[i]) <==> EntryMode(m0.world, m.conns, call.entries[i]).Some?
    {
      MarkedSocket(m0, call, m, i);
    }
    NoneReady(marked);
  }

  /**
   * The timeout answer, over any run up to the resume: given exactly if the call named a timeout above zero, the
   * timer expired, and at the resume no direction asked for was ready. A socket ready in the same tick wins.
   */
  lemma TimeoutIff(m0: Machine, call: Call, es: seq<Event>)
    requires Waits(m0, call) && GoesOn(Step(m0, Select(call)), es)
    ensures var m := Run(Step(m0, Select(call)), es);
            m.slot.Some?
            && (Answered(m) == Timeout
                <==> |call.args| == 2 && IsNumber(call.args[1]) && ToNumber(call.args[1]) > 0.0
                     && TimerExpires in es
                     && forall i | 0 <= i < |call.entries| :: EntryMode(m0.world, m.conns, call.entries[i]).None?)
  {
    WaitGoesOn(m0, call, es);
    NoneMarked(m0, call, Run(Step(m0, Select(call)), es));
  }

  /** With no timeout, nil or zero, no timer is ever set, and "timeout" is never answered. */
  lemma NeverTimesOut(m0: Machine, call: Call, es: seq<Event>)
    requires Waits(m0, call) && GoesOn(Step(m0, Select(call)), es)
    requires |call.args| < 2 || call.args[1].VNil? || (IsNumber(call.args[1]) && ToNumber(call.args[1]) == 0.0)
    ensures var m := Run(Step(m0, Select(call)), es);
            m.timers == 0 && m.slot.Some? && !m.slot.value.timerSet && Answered(m) != Timeout
  {
    WaitGoesOn(m0, call, es);
    SelectWaits(m0, call);
  }

  /** Marked as `resume` does, the sockets listed are the ready entries of the call. */
  lemma {:induction false} ListedEntries(w: World, conns: map<nat, Conn>, es: seq<(Val, Val)>, marked: seq<Sock>,
                                         live: map<nat, Val>)
    requires |marked| == |es|
    requires forall i | 0 <= i < |es| ::
               Held(live, marked[i].ref) == SocketOf(w, es[i])
               && EntryMode(w, conns, es[i]) == if IsReady(marked[i]) then Some(ModeText(marked[i])) else None
    ensures Listed(marked, live) == ReadyEntries(w, conns, es)
  {
    if es != [] {
      var n := |es| - 1;
      assert forall i | 0 <= i < n :: es[..n][i] == es[i] && marked[..n][i] == marked[i];
      ListedEntries(w, conns, es[..n], marked[..n], live);
    }
  }

  /**
   * Otherwise the answer is the table promised of the entries of the call: their sockets that are ready in a
   * direction asked for, numbered from 1 in the order of the call, each mapped to those directions, and nothing
   * else.
   */
  lemma AnswerIsPromised(m0: Machine, call: Call, m: Machine)
    requires Selecting(m0, call, m)
    requires NamesDistinct(m0.world, call.entries)
    ensures Answered(m).Sockets? ==> Promised(Answered(m).table, ReadyEntries(m0.world, m.conns, call.entries))
  {
    var marked := FlagAll(m.conns, m.slot.value.socks);
    CallCollects(m0, call);
    SelectWaits(m0, call);
    forall i | 0 <= i < |marked|
      ensures Held(m.reg.live, marked[i].ref) == SocketOf(m0.world, call.entries[i])
      ensures Held(m.reg.live, marked[i].ref).VTable?
      ensures EntryMode(m0.world, m.conns, call.entries[i])
           == if IsReady(marked[i]) then Some(ModeText(marked[i])) else None
    {
      MarkedSocket(m0, call, m, i);
    }
    BuiltAsPromised(marked, m.reg.live);
    ListedEntries(m0.world, m.conns, call.entries, marked, m.reg.live);
  }

  // ---------------------------------------------------------------------------
  // Safety over all runs
  // ---------------------------------------------------------------------------

  ghost predicate InSelect(m: Machine) {
    exists m0, call :: Selecting(m0, call, m) && Restorable(m0.hs, SocksOf(m0, call))
  }

  ghost predicate Safe(m: Machine) {
    Idle(m) || InSelect(m)
  }

  /**
   * Calls made with no unread bytes on sockets that are restorable, or that fail; kills only while no
   * completion is queued. Everything else may happen at any time.
   */
  predicate Allowed(m: Machine, e: Event) {
    match e
    case Select(call) =>
      m.status.Running? && Accepted(m, call)
      ==> !BytesWaiting(m.conns, SocksOf(m, call)) && Restorable(m.hs, SocksOf(m, call))
    case Killed => m.queued == 0
    case _ => true
  }

  predicate RunAllowed(m: Machine, es: seq<Event>)
    decreases es
  {
    es == [] || (Allowed(m, es[0]) && RunAllowed(Step(m, es[0]), es[1..]))
  }

  lemma IdleStep(m: Machine, e: Event)
    requires Idle(m) && Allowed(m, e)
    ensures Safe(Step(m, e))
  {
    if e.Select? && m.status.Running? {
      var call := e.call;
      if Accepted(m, call) {
        SelectWaits(m, call);
        assert Selecting(m, call, Step(m, e));
        assert InSelect(Step(m, e));
      } else if CheckCall(m.world, call).None? {
        FailureLeaks(m, call);
        assert Idle(Step(m, e));
      } else {
        assert Idle(Step(m, e));
      }
    } else {
      assert Idle(Step(m, e));
    }
  }

  lemma SelectingStep(m0: Machine, call: Call, m: Machine, e: Event)
    requires Selecting(m0, call, m) && Restorable(m0.hs, SocksOf(m0, call))
    requires Allowed(m, e)
    ensures Safe(Step(m, e))
  {
    RestorableIsUndone(m0.hs, SocksOf(m0, call));
    if e.Killed? {
      KillPutsBack(m0, call, m);
      assert Idle(Step(m, e));
    } else if Finishes(m, e) {
      DrainPutsBack(m0, call, m);
      assert Idle(Step(m, e));
    } else {
      StaysWaiting(Step(m0, Select(call)), m, e);
      assert Selecting(m0, call, Step(m, e));
      assert InSelect(Step(m, e));
    }
  }

  /**
   * Over every allowed run, however the events interleave, the process never crashes, and one of the
   * module's handlers is in place only while its context is registered, so that an event always finds one.
   */
  lemma {:induction false} RunsAreSafe(m: Machine, es: seq<Event>)
    requires Safe(m) && RunAllowed(m, es)
    ensures Safe(Run(m, es)) && !Run(m, es).status.Crashed?
    ensures !HandlersFree(Run(m, es).hs) ==> Run(m, es).slot.Some?
    ensures Run(m, es).queued <= 1 && Run(m, es).timers <= 1
    decreases es
  {
    if es != [] {
      if Idle(m) {
        IdleStep(m, es[0]);
      } else {
        var m0, call :| Selecting(m0, call, m) && Restorable(m0.hs, SocksOf(m0, call));
        SelectingStep(m0, call, m, es[0]);
      }
      RunsAreSafe(Step(m, es[0]), es[1..]);
    } else if !Idle(m) {
      var m0, call :| Selecting(m0, call, m) && Restorable(m0.hs, SocksOf(m0, call));
    }
  }

  /** The call suspends the thread. */
  predicate Suspends(m: Machine, e: Event) {
    e.Select? && m.status.Running? && Accepted(m, e.call) && !BytesWaiting(m.conns, SocksOf(m, e.call))
  }

  function Suspensions(m: Machine, es: seq<Event>): nat
    decreases es
  {
    if es == [] then 0 else (if Suspends(m, es[0]) then 1 else 0) + Suspensions(Step(m, es[0]), es[1..])
  }

  /** How often the thread is killed while it is suspended. */
  function Kills(m: Machine, es: seq<Event>): nat
    decreases es
  {
    if es == [] then 0
    else (if es[0].Killed? && m.status.Yielded? then 1 else 0) + Kills(Step(m, es[0]), es[1..])
  }

  function Pending(m: Machine): nat {
    if m.status.Yielded? then 1 else 0
  }

  lemma IdleBalance(m: Machine, e: Event)
    requires Idle(m) && Allowed(m, e)
    ensures Step(m, e).resumes + Pending(Step(m, e)) == m.resumes + if Suspends(m, e) then 1 else 0
  {
    if Suspends(m, e) {
      SelectWaits(m, e.call);
    } else if e.Select? && m.status.Running? && CheckCall(m.world, e.call).None? {
      FailureLeaks(m, e.call);
    }
  }

  lemma SelectingBalance(m0: Machine, call: Call, m: Machine, e: Event)
    requires Selecting(m0, call, m) && Restorable(m0.hs, SocksOf(m0, call)) && Allowed(m, e)
    ensures Step(m, e).resumes + Pending(Step(m, e)) + (if e.Killed? then 1 else 0) == m.resumes + 1
  {
    RestorableIsUndone(m0.hs, SocksOf(m0, call));
    if e.Killed? {
      KillPutsBack(m0, call, m);
    } else if Finishes(m, e) {
      DrainPutsBack(m0, call, m);
    } else {
      StaysWaiting(Step(m0, Select(call)), m, e);
    }
  }

  /**
   * One resume or one kill for every suspension, over every allowed run: the thread is resumed exactly as often
   * as it was suspended, less the times it was killed while suspended and the suspension that is still pending.
   */
  lemma {:induction false} ResumesBalance(m: Machine, es: seq<Event>)
    requires Safe(m) && RunAllowed(m, es)
    ensures Run(m, es).resumes + Pending(Run(m, es)) + Kills(m, es) == m.resumes + Pending(m) + Suspensions(m, es)
    decreases es
  {
    if es != [] {
      if Idle(m) {
        IdleStep(m, es[0]);
        IdleBalance(m, es[0]);
      } else {
        var m0, call :| Selecting(m0, call, m) && Restorable(m0.hs, SocksOf(m0, call));
        SelectingStep(m0, call, m, es[0]);
        SelectingBalance(m0, call, m, es[0]);
      }
      ResumesBalance(Step(m, es[0]), es[1..]);
    }
  }

  // ---------------------------------------------------------------------------
  // Where the code falls short
  // ---------------------------------------------------------------------------

  /** The answer of the byte-count query for an entry's connection; negative if the query fails. */
  function Unread(w: World, conns: map<nat, Conn>, e: (Val, Val)): int {
    match PickEntry(w, e.0, e.1)
    case Err(_) => 0
    case Ok(p) => var u := UpOf(w, p.up); ConnOf(conns, if u.conn.Some? then u.conn.value else 0).bytes
  }

  /**
   * A call that finds unread bytes follows a context pointer that is not set yet. In terms of its entries: the
   * process crashes exactly if the call and all its entries are in order, no query fails, and one finds bytes.
   */
  lemma CallCrashesIff(m: Machine, call: Call)
    requires Idle(m) && m.status.Running?
    ensures Step(m, Select(call)).status.Crashed?
       <==> CheckCall(m.world, call).None?
            && (forall i | 0 <= i < |call.entries| ::
                  Picks(m.world, call.entries, i).Ok? && Unread(m.world, m.conns, call.entries[i]) >= 0)
            && exists i :: 0 <= i < |call.entries| && Unread(m.world, m.conns, call.entries[i]) > 0
  {
    var c := CollectFor(m, call);
    CallCollects(m, call);
    assert forall i | 0 <= i < |c.socks| :: FilledFrom(m.world, call.entries[i], c.socks[i]);
    assert forall i | 0 <= i < |c.socks| ::
        ConnOf(m.conns, c.socks[i].conn).bytes == Unread(m.world, m.conns, call.entries[i]);
    assert Step(m, Select(call)).status.Crashed? <==> Accepted(m, call) && BytesWaiting(m.conns, c.socks);
  }

  /** A kill does not take back a queued completion: the next drain then crashes, and otherwise it does not. */
  lemma KillCrashesIff(m0: Machine, call: Call, m: Machine)
    requires Selecting(m0, call, m) && Restorable(m0.hs, SocksOf(m0, call))
    ensures Step(Step(m, Killed), QueueDrains).status.Crashed? <==> m.queued == 1
  {
    RestorableIsUndone(m0.hs, SocksOf(m0, call));
    KillPutsBack(m0, call, m);
  }

  /**
   * Selecting for writing leaves the module's write handler behind: if the wait ends at all, the next
   * writable event on that socket crashes the process.
   */
  lemma WriteHandlerLeftBehind(m0: Machine, call: Call, m: Machine, e: Event, i: nat)
    requires Selecting(m0, call, m)
    requires Finishes(m, e)
    requires i < |SocksOf(m0, call)| && SocksOf(m0, call)[i].write
    ensures var s := SocksOf(m0, call)[i];
            Step(Step(m, e), if s.downstream then RequestWritable else UpstreamWritable(s.up)).status.Crashed?
  {
    var socks := SocksOf(m0, call);
    WritesOutlive(m0.hs, socks, i);
    EndUndoes(m0, call, m, e);
    LeftoverCrashes(Step(m, e), socks[i]);
  }

  lemma LeftoverCrashes(d: Machine, s: Sock)
    requires d.status.Crashed?
             || (d.slot.None?
                 && if s.downstream then d.hs.reqWrite.WriteRequest? else WriteOf(d.hs, s.up).WriteUpstream?)
    ensures Step(d, if s.downstream then RequestWritable else UpstreamWritable(s.up)).status.Crashed?
  {
  }

  lemma WritesOutlive(hs: Handlers, socks: seq<Sock>, i: nat)
    requires i < |socks| && socks[i].write
    ensures Undone(hs, socks).Some? && socks[i].downstream ==> Undone(hs, socks).value.reqWrite == WriteRequest
    ensures Undone(hs, socks).Some? && !socks[i].downstream ==>
              WriteOf(Undone(hs, socks).value, socks[i].up) == WriteUpstream
  {
    var a := Install(hs, socks);
    WritesStay(hs, socks, i);
    RestoreForm(a.hs, a.prevRead, a.socks);
  }
}
