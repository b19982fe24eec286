/**
 * The select protocol as a state machine: what each step makes of the state.
 * The methods of `SelectWorker.Worker` are proved to compute exactly this.
 */
module SelectProtocol {
  import opened Prelude
  import opened SelectLua
  import opened SelectTypes

  // ---------------------------------------------------------------------------
  // State
  // ---------------------------------------------------------------------------

  /** The event handlers of the upstreams, and the two of the request itself. */
  datatype Handlers = Handlers(
    upRead: map<nat, Handler>, upWrite: map<nat, Handler>, reqRead: Handler, reqWrite: Handler)

  function ReadOf(hs: Handlers, u: nat): Handler {
    if u in hs.upRead then hs.upRead[u] else Null
  }

  function WriteOf(hs: Handlers, u: nat): Handler {
    if u in hs.upWrite then hs.upWrite[u] else Null
  }

  /** A select context: its sockets, its reference, the saved request handlers, and its two events. */
  datatype Ctx = Ctx(
    socks: seq<Sock>, ref: nat, prevRead: Handler, prevWrite: Handler,
    posted: bool, timerSet: bool, timedout: bool)

  /** What nginx calls when the request's phases are run: the usual handler, the module's, or some other. */
  datatype Resumer = UsualHandler | SelectResume | OtherHandler(id: nat)

  datatype Status = Running | Yielded | Dead | Crashed

  datatype Failure =
    | NoArguments | TooManyArguments | NotATable | BadTimeout | NegativeTimeout
    | NoRequest | NoRequestContext | NoThreadContext
    | BadSocket | BadMode | BadEntry | NoContext | Closed | WrongRequest | Connecting | BusyReading | BusyWriting
    | ProbeError

  datatype Outcome = Nothing | Returned(answer: Answer) | Raised(failure: Failure)

  /**
   * The state of one request with one Lua thread. `slot` is the module's context pointer for the request,
   * `queued` and `timers` count the module's entries in nginx's posted queue and timer tree, `cleanup`
   * says whether the thread's cleanup hook is the module's, `resumer` is the request's resume handler, and
   * `last` is what the last select call gave.
   */
  datatype Machine = Machine(
    world: World, conns: map<nat, Conn>, hs: Handlers, reg: Registry,
    slot: Option<Ctx>, queued: nat, timers: nat, cleanup: bool, resumer: Resumer,
    status: Status, last: Outcome, resumes: nat)

  function Crash(m: Machine): Machine {
    m.(status := Crashed)
  }

  // ---------------------------------------------------------------------------
  // Validating and collecting the sockets
  // ---------------------------------------------------------------------------

  /** A socket with the directions asked for. */
  datatype Picked = Picked(sock: Val, up: nat, read: bool, write: bool)
  datatype Pick = Ok(picked: Picked) | Err(failure: Failure)

  /** `strchr`: the search stops at a zero character. */
  predicate HasChar(s: string, c: char) {
    s != "" && s[0] != '\0' && (s[0] == c || HasChar(s[1..], c))
  }

  /** The text of a string value; that of a number has neither letter in it. */
  function ModeString(v: Val): string {
    if v.VStr? then v.text else ""
  }

  function CheckUpstream(w: World, p: Picked): Pick {
    var u := UpOf(w, p.up);
    if u.conn.None? || u.readClosed then Err(Closed)
    else if u.request != w.request then Err(WrongRequest)
    else if u.connWaiting then Err(Connecting)
    else if p.read && u.readWaiting then Err(BusyReading)
    else if p.write && (u.writeWaiting || (u.rawDownstream && w.buffered)) then Err(BusyWriting)
    else Ok(p)
  }

  /** One entry of the socket table: `{socket}` or `{[socket] = "rw"}`. */
  function PickEntry(w: World, key: Val, val: Val): Pick {
    if IsNumber(key) then
      if !val.VTable? then Err(BadSocket)
      else if val.id !in w.contexts then Err(NoContext)
      else CheckUpstream(w, Picked(val, w.contexts[val.id], true, false))
    else if IsString(val) && key.VTable? then
      var read, write := HasChar(ModeString(val), 'r'), HasChar(ModeString(val), 'w');
      if !read && !write then Err(BadMode)
      else if key.id !in w.contexts then Err(NoContext)
      else CheckUpstream(w, Picked(key, w.contexts[key.id], read, write))
    else Err(BadEntry)
  }

  function NewSock(w: World, p: Picked, ref: nat): Sock {
    var u := UpOf(w, p.up);
    var c := if u.conn.Some? then u.conn.value else 0;
    Sock(p.up, c, c == w.connection, p.read, p.write, ref, false, false, Null, Null)
  }

  /** The sockets collected, the registry after it, and the failure met, if any. */
  datatype Collected = Collected(socks: seq<Sock>, reg: Registry, failure: Option<Failure>)

  function Collect(w: World, es: seq<(Val, Val)>, socks: seq<Sock>, reg: Registry): Collected
    decreases es
  {
    if es == [] then Collected(socks, reg, None)
    else
      match PickEntry(w, es[0].0, es[0].1)
      case Err(f) => Collected(socks, reg, Some(f))
      case Ok(p) => Collect(w, es[1..], socks + [NewSock(w, p, RefOf(reg))], Refer(reg, p.sock))
  }

  /** Event removal on failure, socket by socket. */
  function Deactivate(conns: map<nat, Conn>, socks: seq<Sock>): map<nat, Conn> {
    if socks == [] then conns
    else
      var before, last := Deactivate(conns, socks[..|socks| - 1]), socks[|socks| - 1];
      var c := ConnOf(before, last.conn);
      before[last.conn := c.(readActive := c.readActive && !last.read, writeActive := c.writeActive && !last.write)]
  }

  /** The byte-count query: an error stops it; otherwise the sockets with bytes waiting are marked and counted. */
  predicate ProbeFails(conns: map<nat, Conn>, socks: seq<Sock>) {
    exists i :: 0 <= i < |socks| && ConnOf(conns, socks[i].conn).bytes < 0
  }

  function Probed(conns: map<nat, Conn>, s: Sock): Sock {
    if ConnOf(conns, s.conn).bytes > 0 then s.(readReady := true) else s
  }

  function ProbeAll(conns: map<nat, Conn>, socks: seq<Sock>): seq<Sock> {
    seq(|socks|, i requires 0 <= i < |socks| => Probed(conns, socks[i]))
  }

  predicate BytesWaiting(conns: map<nat, Conn>, socks: seq<Sock>) {
    exists i :: 0 <= i < |socks| && ConnOf(conns, socks[i].conn).bytes > 0
  }

  // ---------------------------------------------------------------------------
  // Saving, replacing and restoring handlers
  // ---------------------------------------------------------------------------

  datatype Installed = Installed(hs: Handlers, prevRead: Handler, prevWrite: Handler, socks: seq<Sock>)

  function InstallOne(a: Installed, s: Sock): Installed {
    if s.downstream then
      var hs := a.hs.(reqRead := if s.read then ReadRequest else a.hs.reqRead,
                      reqWrite := if s.write then WriteRequest else a.hs.reqWrite);
      Installed(hs, if s.read then a.hs.reqRead else a.prevRead, if s.write then a.hs.reqWrite else a.prevWrite,
                a.socks + [s.(readReady := false, writeReady := false)])
    else
      var hs := a.hs.(upRead := if s.read then a.hs.upRead[s.up := ReadUpstream] else a.hs.upRead,
                      upWrite := if s.write then a.hs.upWrite[s.up := WriteUpstream] else a.hs.upWrite);
      var saved := s.(prevRead := if s.read then ReadOf(a.hs, s.up) else Null,
                      prevWrite := if s.write then WriteOf(a.hs, s.up) else Null,
                      readReady := false, writeReady := false);
      Installed(hs, a.prevRead, a.prevWrite, a.socks + [saved])
  }

  function Install(hs: Handlers, socks: seq<Sock>): (a: Installed)
    ensures |a.socks| == |socks|
  {
    if socks == [] then Installed(hs, Null, Null, [])
    else InstallOne(Install(hs, socks[..|socks| - 1]), socks[|socks| - 1])
  }

  /** Putting back the read handlers; a missing saved handler aborts the process. */
  function Restore(hs: Handlers, prevRead: Handler, socks: seq<Sock>): Option<Handlers> {
    if socks == [] then Some(hs)
    else
      var before, last := Restore(hs, prevRead, socks[..|socks| - 1]), socks[|socks| - 1];
      if before.None? then None
      else if last.downstream then
        if prevRead.Null? then None else Some(before.value.(reqRead := prevRead))
      else if last.prevRead.Null? then None
      else Some(before.value.(upRead := before.value.upRead[last.up := last.prevRead]))
  }

  function Refs(socks: seq<Sock>): seq<nat> {
    seq(|socks|, i requires 0 <= i < |socks| => socks[i].ref)
  }

  // ---------------------------------------------------------------------------
  // Steps
  // ---------------------------------------------------------------------------

  /** Undoing a select: timer, handlers, references, and the context pointer, which must be there. */
  function Discard(m: Machine): Machine {
    if m.slot.None? then Crash(m)
    else
      var ctx := m.slot.value;
      var restored := Restore(m.hs, ctx.prevRead, ctx.socks);
      if restored.None? then Crash(m)
      else m.(timers := if ctx.timerSet && m.timers > 0 then m.timers - 1 else m.timers,
              hs := restored.value,
              reg := Release(ReleaseAll(m.reg, Refs(ctx.socks)), ctx.ref),
              slot := None)
  }

  function AnswerOf(socks: seq<Sock>, live: map<nat, Val>, timedout: bool): Answer {
    if Ready(socks) == [] && timedout then Timeout else Sockets(Built(socks, live))
  }

  /** A call: the arguments, and the pairs of the first one if it is a table. */
  datatype Call = Call(args: seq<Val>, entries: seq<(Val, Val)>)

  function CheckArguments(call: Call): Option<Failure> {
    var n := |call.args|;
    if n == 0 then Some(NoArguments)
    else if n > 2 then Some(TooManyArguments)
    else if !call.args[0].VTable? then Some(NotATable)
    else if n == 2 && !IsNumber(call.args[1]) && !call.args[1].VNil? then Some(BadTimeout)
    else if n == 2 && IsNumber(call.args[1]) && ToNumber(call.args[1]) < 0.0 then Some(NegativeTimeout)
    else None
  }

  /** The request, its Lua context and its thread are looked up in this order. */
  function CheckRequest(w: World): Option<Failure> {
    if !w.requestKnown then Some(NoRequest)
    else if !w.luaContext then Some(NoRequestContext)
    else if !w.threadContext then Some(NoThreadContext)
    else None
  }

  function CheckCall(w: World, call: Call): Option<Failure> {
    if CheckArguments(call).Some? then CheckArguments(call) else CheckRequest(w)
  }

  /** The timer is armed for a timeout above zero. */
  predicate Arms(call: Call) {
    |call.args| == 2 && IsNumber(call.args[1]) && ToNumber(call.args[1]) > 0.0
  }

  /** The context's own reference is taken before those of the sockets. */
  function CollectFor(m: Machine, call: Call): Collected {
    Collect(m.world, call.entries, [], Refer(m.reg, VData(0)))
  }

  function Fail(m: Machine, socks: seq<Sock>, ref: nat, f: Failure): Machine {
    m.(reg := Release(m.reg, ref), conns := Deactivate(m.conns, socks), last := Raised(f))
  }

  /** The thread's pending operation, if it has one, is cleaned up before the new hook is set. */
  function RunCleanup(m: Machine): Machine {
    if m.cleanup then Discard(m).(cleanup := false) else m
  }

  /** The handlers are replaced, the timer armed if need be, and the context registered. */
  function Registered(m: Machine, socks: seq<Sock>, ref: nat, arms: bool): Machine {
    var i := Install(m.hs, socks);
    m.(hs := i.hs, timers := if arms then m.timers + 1 else m.timers,
       slot := Some(Ctx(i.socks, ref, i.prevRead, i.prevWrite, false, arms, false)))
  }

  /** Suspending the thread. */
  function Wait(m: Machine, socks: seq<Sock>, ref: nat, arms: bool): Machine {
    var cleaned := RunCleanup(Registered(m, socks, ref, arms));
    if cleaned.status.Crashed? then cleaned else cleaned.(cleanup := true, status := Yielded)
  }

  /** Answering at once: the result is built, then whatever context is registered is discarded. */
  function AnswerAtOnce(m: Machine, socks: seq<Sock>): Machine {
    var d := Discard(m);
    if d.status.Crashed? then d else d.(last := Returned(AnswerOf(ProbeAll(m.conns, socks), m.reg.live, false)))
  }

  /** What follows once all sockets are collected. */
  function Proceed(m: Machine, socks: seq<Sock>, ref: nat, arms: bool): Machine {
    if ProbeFails(m.conns, socks) then Fail(m, socks, ref, ProbeError)
    else if BytesWaiting(m.conns, socks) then AnswerAtOnce(m, socks)
    else Wait(m, socks, ref, arms)
  }

  /** What follows the two passes over the table. */
  function AfterPasses(m: Machine, c: Collected, ref: nat, arms: bool): Machine {
    if c.failure.Some? then Fail(m, c.socks, ref, c.failure.value) else Proceed(m, c.socks, ref, arms)
  }

  function SelectStep(m: Machine, call: Call): Machine {
    var bad := CheckCall(m.world, call);
    if bad.Some? then m.(last := Raised(bad.value))
    else
      var c := CollectFor(m, call);
      AfterPasses(m.(reg := c.reg), c, RefOf(m.reg), Arms(call))
  }

  /** An activated event only queues the completion, once. The context pointer is followed unchecked. */
  function Activate(m: Machine): Machine {
    if m.slot.None? then Crash(m)
    else if m.slot.value.posted then m
    else m.(slot := Some(m.slot.value.(posted := true)), queued := m.queued + 1)
  }

  /** nginx calls an event handler; those that are not the module's do nothing to its state. */
  function CallHandler(m: Machine, h: Handler): Machine {
    if OfSelect(h) then Activate(m) else m
  }

  /** The timer runs out: nginx takes it from the tree, marks it and calls its handler. */
  function TimerStep(m: Machine): Machine {
    if m.timers == 0 then m
    else if m.slot.None? then Crash(m)
    else Activate(m.(timers := m.timers - 1, slot := Some(m.slot.value.(timerSet := false, timedout := true))))
  }

  function Flagged(conns: map<nat, Conn>, s: Sock): Sock {
    var c := ConnOf(conns, s.conn);
    s.(readReady := s.readReady || (s.read && c.readReady), writeReady := s.writeReady || (s.write && c.writeReady))
  }

  function FlagAll(conns: map<nat, Conn>, socks: seq<Sock>): seq<Sock> {
    seq(|socks|, i requires 0 <= i < |socks| => Flagged(conns, socks[i]))
  }

  /** Building the answer from the registered context, undoing the select, and running the thread on. */
  function GiveAnswer(m: Machine): Machine
    requires m.slot.Some?
  {
    var d := Discard(m);
    if d.status.Crashed? then d
    else d.(status := Running, resumer := UsualHandler, resumes := m.resumes + 1,
            last := Returned(AnswerOf(m.slot.value.socks, m.reg.live, m.slot.value.timedout)))
  }

  /** The same, once the sockets that are ready have been marked. */
  function Resume(m: Machine): Machine {
    if m.slot.None? then Crash(m)
    else GiveAnswer(m.(slot := Some(m.slot.value.(socks := FlagAll(m.conns, m.slot.value.socks)))))
  }

  /** nginx runs the phases of a request, which calls the resume handler that is set. */
  function RunPhases(m: Machine): Machine {
    if m.resumer.SelectResume? then Resume(m) else m
  }

  /**
   * The completion's handler. It does nothing if the request has lost its Lua context; before the content phase
   * the thread is resumed by way of the phases.
   */
  function Complete(m: Machine): Machine {
    if m.slot.None? then Crash(m)
    else if !m.world.luaContext then m
    else if m.world.contentPhase then Resume(m.(cleanup := false))
    else RunPhases(m.(cleanup := false, resumer := SelectResume))
  }

  /** nginx takes the completion from the queue, clears its mark and calls its handler. */
  function DrainStep(m: Machine): Machine {
    if m.queued == 0 then m
    else if m.slot.None? then Crash(m)
    else Complete(m.(queued := m.queued - 1, slot := Some(m.slot.value.(posted := false))))
  }

  /** The thread is killed, or its request ends: its cleanup hook runs. */
  function KillStep(m: Machine): Machine {
    var d := RunCleanup(m);
    if d.status.Crashed? then d else d.(status := Dead)
  }

  datatype Event =
    | Select(call: Call)
    | UpstreamReadable(up: nat) | UpstreamWritable(up: nat) | RequestReadable | RequestWritable
    | TimerExpires | QueueDrains | Killed
    | WorldChanges(world: World, conns: map<nat, Conn>)
    | LuaRuns(hs: Handlers)

  /** Handlers are set by Lua code other than the module only while the thread runs. */
  predicate HandlersFree(hs: Handlers) {
    && (forall u | u in hs.upRead :: !OfSelect(hs.upRead[u]))
    && (forall u | u in hs.upWrite :: !OfSelect(hs.upWrite[u]))
    && !OfSelect(hs.reqRead) && !OfSelect(hs.reqWrite)
  }

  function Step(m: Machine, e: Event): Machine {
    if m.status.Crashed? then m
    else
      match e
      case Select(call) => if m.status.Running? then SelectStep(m, call) else m
      case UpstreamReadable(u) => CallHandler(m, ReadOf(m.hs, u))
      case UpstreamWritable(u) => CallHandler(m, WriteOf(m.hs, u))
      case RequestReadable => CallHandler(m, m.hs.reqRead)
      case RequestWritable => CallHandler(m, m.hs.reqWrite)
      case TimerExpires => TimerStep(m)
      case QueueDrains => DrainStep(m)
      case Killed => if m.status.Dead? then m else KillStep(m)
      case WorldChanges(w, conns) => m.(world := w, conns := conns)
      case LuaRuns(hs) => if m.status.Running? && HandlersFree(hs) then m.(hs := hs) else m
  }

  function Run(m: Machine, es: seq<Event>): Machine
    decreases es
  {
    if es == [] then m else Run(Step(m, es[0]), es[1..])
  }
}
