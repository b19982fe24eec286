/** Calls in terms of their arguments and entries: which fail and how, and what the others put in place. */
module SelectEntries {
  import opened Prelude
  import opened SelectLua
  import opened SelectTypes
  import opened SelectProtocol
  import opened SelectHandlers
  import opened SelectCollect
  import opened SelectRuns

  // ---------------------------------------------------------------------------
  // Entries
  // ---------------------------------------------------------------------------

  /** The socket of an entry: `{socket}` or `{[socket] = mode}`. */
  function SocketTable(e: (Val, Val)): Val {
    if IsNumber(e.0) then e.1 else e.0
  }

  /** The letter is in the text, which ends at a zero character. */
  predicate InText(text: string, c: char) {
    exists i :: 0 <= i < |text| && text[i] == c && forall j | 0 <= j < i :: text[j] != '\0'
  }

  predicate AsksRead(e: (Val, Val)) {
    IsNumber(e.0) || (e.1.VStr? && InText(e.1.text, 'r'))
  }

  predicate AsksWrite(e: (Val, Val)) {
    !IsNumber(e.0) && e.1.VStr? && InText(e.1.text, 'w')
  }

  predicate WellFormed(e: (Val, Val)) {
    if IsNumber(e.0) then e.1.VTable?
    else e.0.VTable? && (e.1.VStr? || e.1.VNum?) && (AsksRead(e) || AsksWrite(e))
  }

  /** The entry's socket has an upstream behind it. */
  predicate Backed(w: World, e: (Val, Val)) {
    WellFormed(e) && SocketTable(e).id in w.contexts
  }

  function UpstreamOf(w: World, e: (Val, Val)): nat
    requires Backed(w, e)
  {
    w.contexts[SocketTable(e).id]
  }

  /** The upstream is connected, still open, of this request, and past connecting. */
  predicate Settled(w: World, u: Upstream) {
    u.conn.Some? && !u.readClosed && u.request == w.request && !u.connWaiting
  }

  predicate ReadBusy(u: Upstream) {
    u.readWaiting
  }

  predicate WriteBusy(w: World, u: Upstream) {
    u.writeWaiting || (u.rawDownstream && w.buffered)
  }

  /** What a call demands of an entry. */
  predicate Usable(w: World, e: (Val, Val)) {
    Backed(w, e)
    && var u := UpOf(w, UpstreamOf(w, e));
       Settled(w, u) && !(AsksRead(e) && ReadBusy(u)) && !(AsksWrite(e) && WriteBusy(w, u))
  }

  /** What an entry is like that a call refuses with this failure. */
  predicate Fault(w: World, e: (Val, Val), f: Failure) {
    match f
    case BadSocket => IsNumber(e.0) && !e.1.VTable?
    case BadEntry => !IsNumber(e.0) && !(e.0.VTable? && (e.1.VStr? || e.1.VNum?))
    case BadMode => !IsNumber(e.0) && e.0.VTable? && (e.1.VStr? || e.1.VNum?) && !AsksRead(e) && !AsksWrite(e)
    case NoContext => WellFormed(e) && !Backed(w, e)
    case _ => Backed(w, e) && UpstreamFault(w, e, UpOf(w, UpstreamOf(w, e)), f)
  }

  predicate UpstreamFault(w: World, e: (Val, Val), u: Upstream, f: Failure) {
    match f
    case Closed => u.conn.None? || u.readClosed
    case WrongRequest => u.conn.Some? && !u.readClosed && u.request != w.request
    case Connecting => u.conn.Some? && !u.readClosed && u.request == w.request && u.connWaiting
    case BusyReading => Settled(w, u) && AsksRead(e) && ReadBusy(u)
    case BusyWriting => Settled(w, u) && !(AsksRead(e) && ReadBusy(u)) && AsksWrite(e) && WriteBusy(w, u)
    case _ => false
  }

  lemma {:induction false} HasCharIff(s: string, c: char)
    requires c != '\0'
    ensures HasChar(s, c) <==> InText(s, c)
  {
    if s != "" && s[0] != '\0' && s[0] != c {
      HasCharIff(s[1..], c);
      if InText(s[1..], c) {
        var i :| 0 <= i < |s[1..]| && s[1..][i] == c && forall j | 0 <= j < i :: s[1..][j] != '\0';
        assert s[i + 1] == c && forall j | 0 < j < i + 1 :: s[j] == s[1..][j - 1];
      }
      if InText(s, c) {
        var i :| 0 <= i < |s| && s[i] == c && forall j | 0 <= j < i :: s[j] != '\0';
        assert s[1..][i - 1] == c && forall j | 0 <= j < i - 1 :: s[1..][j] == s[j + 1];
      }
    }
  }

  /** An entry is taken exactly if it is usable, and then for what it asks. */
  lemma PickIs(w: World, e: (Val, Val))
    ensures PickEntry(w, e.0, e.1).Ok? <==> Usable(w, e)
    ensures Usable(w, e) ==>
              PickEntry(w, e.0, e.1) == Ok(Picked(SocketTable(e), UpstreamOf(w, e), AsksRead(e), AsksWrite(e)))
    ensures forall f :: PickEntry(w, e.0, e.1) == Err(f) <==> Fault(w, e, f)
  {
    HasCharIff(ModeString(e.1), 'r');
    HasCharIff(ModeString(e.1), 'w');
  }

  // ---------------------------------------------------------------------------
  // Which calls fail, and how
  // ---------------------------------------------------------------------------

  /** The arguments are a table and perhaps a timeout of zero or more. */
  predicate ArgumentsInOrder(call: Call) {
    (|call.args| == 1 || |call.args| == 2) && call.args[0].VTable?
    && (|call.args| == 2 ==>
          call.args[1].VNil? || (IsNumber(call.args[1]) && ToNumber(call.args[1]) >= 0.0))
  }

  predicate CallInOrder(w: World, call: Call) {
    ArgumentsInOrder(call) && w.requestKnown && w.luaContext && w.threadContext
  }

  /** What a call is like that is refused with this failure before its entries are looked at. */
  predicate CallFault(w: World, call: Call, f: Failure) {
    var n := |call.args|;
    match f
    case NoArguments => n == 0
    case TooManyArguments => n > 2
    case NotATable => 1 <= n <= 2 && !call.args[0].VTable?
    case BadTimeout => n == 2 && call.args[0].VTable? && !IsNumber(call.args[1]) && !call.args[1].VNil?
    case NegativeTimeout =>
      n == 2 && call.args[0].VTable? && IsNumber(call.args[1]) && ToNumber(call.args[1]) < 0.0
    case NoRequest => ArgumentsInOrder(call) && !w.requestKnown
    case NoRequestContext => ArgumentsInOrder(call) && w.requestKnown && !w.luaContext
    case NoThreadContext => ArgumentsInOrder(call) && w.requestKnown && w.luaContext && !w.threadContext
    case _ => false
  }

  lemma CallFaultIff(w: World, call: Call)
    ensures CheckCall(w, call).None? <==> CallInOrder(w, call)
    ensures forall f :: CheckCall(w, call) == Some(f) <==> CallFault(w, call, f)
  {
  }

  /** Entry `i` is the first bad one. */
  predicate FirstBad(w: World, es: seq<(Val, Val)>, i: nat, f: Failure) {
    i < |es| && Fault(w, es[i], f) && forall j | 0 <= j < i :: Usable(w, es[j])
  }

  predicate AllUsable(w: World, es: seq<(Val, Val)>) {
    forall i | 0 <= i < |es| :: Usable(w, es[i])
  }

  /** How many sockets are collected: all, or those before the first bad entry. */
  lemma CollectedAre(m: Machine, call: Call)
    requires Sound(m.reg)
    ensures CollectFor(m, call).failure.None? <==> AllUsable(m.world, call.entries)
    ensures |SocksOf(m, call)| <= |call.entries|
    ensures CollectFor(m, call).failure.None? ==> |SocksOf(m, call)| == |call.entries|
    ensures CollectFor(m, call).failure.Some? ==>
              FirstBad(m.world, call.entries, |SocksOf(m, call)|, CollectFor(m, call).failure.value)
    ensures forall i | 0 <= i < |SocksOf(m, call)| :: SocketIs(m.world, call.entries[i], SocksOf(m, call)[i])
  {
    var c := CollectFor(m, call);
    CallCollects(m, call);
    forall i | 0 <= i < |call.entries|
      ensures Picks(m.world, call.entries, i).Ok? <==> Usable(m.world, call.entries[i])
      ensures forall f :: Picks(m.world, call.entries, i) == Err(f) <==> Fault(m.world, call.entries[i], f)
    {
      PickIs(m.world, call.entries[i]);
    }
    forall i | 0 <= i < |c.socks|
      ensures SocketIs(m.world, call.entries[i], c.socks[i])
    {
      assert FilledFrom(m.world, call.entries[i], c.socks[i]);
      PickIs(m.world, call.entries[i]);
    }
  }

  /** The socket slot is for this entry: its upstream and connection, the request's own or not, and its directions. */
  predicate SocketIs(w: World, e: (Val, Val), s: Sock) {
    Usable(w, e)
    && var u := UpOf(w, UpstreamOf(w, e));
       && s.up == UpstreamOf(w, e) && Some(s.conn) == u.conn
       && s.downstream == (u.conn == Some(w.connection))
       && s.read == AsksRead(e) && s.write == AsksWrite(e)
  }

  /** A call refused for its arguments, its request or its first bad entry raises that failure and goes no further. */
  lemma RefusedWith(m: Machine, call: Call, f: Failure)
    requires Sound(m.reg) && m.status.Running?
    requires CallFault(m.world, call, f)
             || (CallInOrder(m.world, call) && exists i: nat :: FirstBad(m.world, call.entries, i, f))
    ensures var after := Step(m, Select(call));
            after.last == Raised(f) && after.status.Running? && after.hs == m.hs && after.slot == m.slot
            && after.timers == m.timers
  {
    CallFaultIff(m.world, call);
    if CallInOrder(m.world, call) {
      var i: nat :| FirstBad(m.world, call.entries, i, f);
      CollectedAre(m, call);
      PickIs(m.world, call.entries[i]);
      if |SocksOf(m, call)| < |call.entries| {
        PickIs(m.world, call.entries[|SocksOf(m, call)|]);
      }
    }
  }

  lemma UnreadAre(m: Machine, call: Call)
    requires Sound(m.reg) && AllUsable(m.world, call.entries)
    ensures |SocksOf(m, call)| == |call.entries|
    ensures forall i | 0 <= i < |call.entries| ::
              ConnOf(m.conns, SocksOf(m, call)[i].conn).bytes == Unread(m.world, m.conns, call.entries[i])
  {
    CollectedAre(m, call);
    forall i | 0 <= i < |call.entries|
      ensures ConnOf(m.conns, SocksOf(m, call)[i].conn).bytes == Unread(m.world, m.conns, call.entries[i])
    {
      assert SocketIs(m.world, call.entries[i], SocksOf(m, call)[i]);
      PickIs(m.world, call.entries[i]);
    }
  }

  /** With every entry usable, a failing query raises the probe's failure. */
  lemma ProbeRefuses(m: Machine, call: Call, i: nat)
    requires Sound(m.reg) && m.status.Running? && CallInOrder(m.world, call) && AllUsable(m.world, call.entries)
    requires i < |call.entries| && Unread(m.world, m.conns, call.entries[i]) < 0
    ensures Step(m, Select(call)).last == Raised(ProbeError) && Step(m, Select(call)).status.Running?
  {
    CallFaultIff(m.world, call);
    CollectedAre(m, call);
    UnreadAre(m, call);
    assert ConnOf(m.conns, SocksOf(m, call)[i].conn).bytes < 0;
  }

  /** A call suspends the thread exactly if it and all its entries are in order and no connection has unread bytes. */
  lemma WaitsIff(m: Machine, call: Call)
    requires Idle(m) && m.status.Running?
    ensures Waits(m, call)
       <==> CallInOrder(m.world, call) && AllUsable(m.world, call.entries)
            && forall i | 0 <= i < |call.entries| :: Unread(m.world, m.conns, call.entries[i]) == 0
  {
    CallFaultIff(m.world, call);
    CollectedAre(m, call);
    if AllUsable(m.world, call.entries) {
      UnreadAre(m, call);
    }
  }

  // ---------------------------------------------------------------------------
  // What a suspended call has put in place
  // ---------------------------------------------------------------------------

  predicate OwnConnection(w: World, e: (Val, Val)) {
    Backed(w, e) && UpOf(w, UpstreamOf(w, e)).conn == Some(w.connection)
  }

  /** The entry is for this upstream, and not for the request's own connection. */
  predicate ForUpstream(w: World, e: (Val, Val), u: nat) {
    Backed(w, e) && UpstreamOf(w, e) == u && !OwnConnection(w, e)
  }

  lemma WaitingHandlers(m0: Machine, call: Call, m: Machine)
    requires Selecting(m0, call, m)
    ensures m.hs == Install(m0.hs, SocksOf(m0, call)).hs
    ensures |SocksOf(m0, call)| == |call.entries|
    ensures forall i | 0 <= i < |call.entries| :: SocketIs(m0.world, call.entries[i], SocksOf(m0, call)[i])
  {
    SelectWaits(m0, call);
    CollectedAre(m0, call);
  }

  predicate ReadsUpstream(w: World, es: seq<(Val, Val)>, u: nat) {
    exists i :: 0 <= i < |es| && ForUpstream(w, es[i], u) && AsksRead(es[i])
  }

  predicate WritesUpstream(w: World, es: seq<(Val, Val)>, u: nat) {
    exists i :: 0 <= i < |es| && ForUpstream(w, es[i], u) && AsksWrite(es[i])
  }

  predicate ReadsRequest(w: World, es: seq<(Val, Val)>) {
    exists i :: 0 <= i < |es| && OwnConnection(w, es[i]) && AsksRead(es[i])
  }

  predicate WritesRequest(w: World, es: seq<(Val, Val)>) {
    exists i :: 0 <= i < |es| && OwnConnection(w, es[i]) && AsksWrite(es[i])
  }

  lemma PlacesAre(w: World, es: seq<(Val, Val)>, socks: seq<Sock>, u: nat)
    requires |socks| == |es| && forall i | 0 <= i < |es| :: SocketIs(w, es[i], socks[i])
    ensures ReadsAny(socks, u) <==> ReadsUpstream(w, es, u)
    ensures WritesAny(socks, u) <==> WritesUpstream(w, es, u)
    ensures RequestReads(socks) <==> ReadsRequest(w, es)
    ensures RequestWrites(socks) <==> WritesRequest(w, es)
  {
    assert forall i | 0 <= i < |es| ::
        (OwnConnection(w, es[i]) <==> socks[i].downstream)
        && (ForUpstream(w, es[i], u) <==> !socks[i].downstream && socks[i].up == u)
        && (Reads(socks, i, u) <==> ForUpstream(w, es[i], u) && AsksRead(es[i]));
  }

  /** While the thread waits, the module's handlers are in place exactly where an entry asks; others are untouched. */
  lemma HandlersAre(m0: Machine, call: Call, m: Machine, u: nat)
    requires Selecting(m0, call, m)
    ensures ReadOf(m.hs, u) == if ReadsUpstream(m0.world, call.entries, u) then ReadUpstream else ReadOf(m0.hs, u)
    ensures WriteOf(m.hs, u) == if WritesUpstream(m0.world, call.entries, u) then WriteUpstream else WriteOf(m0.hs, u)
    ensures m.hs.reqRead == if ReadsRequest(m0.world, call.entries) then ReadRequest else m0.hs.reqRead
    ensures m.hs.reqWrite == if WritesRequest(m0.world, call.entries) then WriteRequest else m0.hs.reqWrite
  {
    WaitingHandlers(m0, call, m);
    InstallForm(m0.hs, SocksOf(m0, call));
    InstallWrites(m0.hs, SocksOf(m0, call), u);
    PlacesAre(m0.world, call.entries, SocksOf(m0, call), u);
  }

  /** While the thread waits, a handler of the module is in place for every direction an entry asks for. */
  lemma EntryInstalled(m0: Machine, call: Call, m: Machine, i: nat)
    requires Selecting(m0, call, m) && i < |call.entries|
    ensures var w, e := m0.world, call.entries[i];
            Usable(w, e)
            && (AsksRead(e) ==>
                  if OwnConnection(w, e) then m.hs.reqRead == ReadRequest
                  else ReadOf(m.hs, UpstreamOf(w, e)) == ReadUpstream)
            && (AsksWrite(e) ==>
                  if OwnConnection(w, e) then m.hs.reqWrite == WriteRequest
                  else WriteOf(m.hs, UpstreamOf(w, e)) == WriteUpstream)
  {
    WaitingHandlers(m0, call, m);
    assert SocketIs(m0.world, call.entries[i], SocksOf(m0, call)[i]);
    HandlersAre(m0, call, m, UpstreamOf(m0.world, call.entries[i]));
  }

  /** The event that the entry's socket has when it can be read, or written. */
  function ReadEvent(w: World, e: (Val, Val)): Event
    requires Backed(w, e)
  {
    if OwnConnection(w, e) then RequestReadable else UpstreamReadable(UpstreamOf(w, e))
  }

  function WriteEvent(w: World, e: (Val, Val)): Event
    requires Backed(w, e)
  {
    if OwnConnection(w, e) then RequestWritable else UpstreamWritable(UpstreamOf(w, e))
  }

  /** So such an event on a socket that was asked for leaves exactly one completion queued. */
  lemma EntryWakes(m0: Machine, call: Call, m: Machine, i: nat)
    requires Selecting(m0, call, m) && i < |call.entries|
    ensures var w, e := m0.world, call.entries[i];
            Backed(w, e)
            && (AsksRead(e) ==> Step(m, ReadEvent(w, e)).queued == 1)
            && (AsksWrite(e) ==> Step(m, WriteEvent(w, e)).queued == 1)
  {
    var w, e, y := m0.world, call.entries[i], Step(m0, Select(call));
    EntryInstalled(m0, call, m, i);
    if AsksRead(e) {
      StaysWaiting(y, m, ReadEvent(w, e));
    }
    if AsksWrite(e) {
      StaysWaiting(y, m, WriteEvent(w, e));
    }
  }

  /** Whether two entries keep their handler in the same place. */
  predicate SamePlace(w: World, a: (Val, Val), b: (Val, Val))
    requires Backed(w, a) && Backed(w, b)
  {
    if OwnConnection(w, a) then OwnConnection(w, b)
    else !OwnConnection(w, b) && UpstreamOf(w, a) == UpstreamOf(w, b)
  }

  function SavedHandler(w: World, hs: Handlers, e: (Val, Val)): Handler
    requires Backed(w, e)
  {
    if OwnConnection(w, e) then hs.reqRead else ReadOf(hs, UpstreamOf(w, e))
  }

  /** Which calls can be undone, in terms of their entries. */
  lemma RestorableIff(m: Machine, call: Call)
    requires Sound(m.reg) && AllUsable(m.world, call.entries)
    ensures Restorable(m.hs, SocksOf(m, call))
       <==> (forall e | e in call.entries :: AsksRead(e) && !AsksWrite(e))
            && (forall i, j | 0 <= i < j < |call.entries| :: !SamePlace(m.world, call.entries[i], call.entries[j]))
            && forall e | e in call.entries :: !SavedHandler(m.world, m.hs, e).Null?
  {
    var socks := SocksOf(m, call);
    CollectedAre(m, call);
    assert forall i | 0 <= i < |socks| ::
        SocketIs(m.world, call.entries[i], socks[i]) && call.entries[i] in call.entries;
  }

  // ---------------------------------------------------------------------------
  // What a refused call does to events
  // ---------------------------------------------------------------------------

  predicate AnyRead(socks: seq<Sock>, c: nat) {
    exists i :: 0 <= i < |socks| && socks[i].conn == c && socks[i].read
  }

  predicate AnyWrite(socks: seq<Sock>, c: nat) {
    exists i :: 0 <= i < |socks| && socks[i].conn == c && socks[i].write
  }

  lemma {:induction false} DeactivateIs(conns: map<nat, Conn>, socks: seq<Sock>, c: nat)
    ensures var before, after := ConnOf(conns, c), ConnOf(Deactivate(conns, socks), c);
            after == before.(readActive := before.readActive && !AnyRead(socks, c),
                             writeActive := before.writeActive && !AnyWrite(socks, c))
  {
    if socks != [] {
      var front := socks[..|socks| - 1];
      DeactivateIs(conns, front, c);
      assert forall i | 0 <= i < |front| :: front[i] == socks[i];
    }
  }

  predicate OnConnection(w: World, e: (Val, Val), c: nat) {
    Backed(w, e) && UpOf(w, UpstreamOf(w, e)).conn == Some(c)
  }

  predicate ReadAsked(w: World, es: seq<(Val, Val)>, c: nat) {
    exists i :: 0 <= i < |es| && OnConnection(w, es[i], c) && AsksRead(es[i])
  }

  predicate WriteAsked(w: World, es: seq<(Val, Val)>, c: nat) {
    exists i :: 0 <= i < |es| && OnConnection(w, es[i], c) && AsksWrite(es[i])
  }

  /** The call is refused for entry `n`, or by the probe after the last. */
  predicate RefusedAt(m: Machine, call: Call, n: nat) {
    n <= |call.entries| && AllUsable(m.world, call.entries[..n])
    && if n < |call.entries| then !Usable(m.world, call.entries[n])
       else exists j :: 0 <= j < n && Unread(m.world, m.conns, call.entries[j]) < 0
  }

  /** Collection stops at the first entry that is not usable. */
  lemma StopsAt(m: Machine, call: Call, n: nat)
    requires Sound(m.reg) && n < |call.entries|
    requires AllUsable(m.world, call.entries[..n]) && !Usable(m.world, call.entries[n])
    ensures |SocksOf(m, call)| == n && CollectFor(m, call).failure.Some?
  {
    var k := |SocksOf(m, call)|;
    CollectedAre(m, call);
    assert forall i | 0 <= i < k ::
        SocketIs(m.world, call.entries[i], SocksOf(m, call)[i]) && Usable(m.world, call.entries[i]);
    assert forall i | 0 <= i < n :: call.entries[..n][i] == call.entries[i] && Usable(m.world, call.entries[i]);
    if k < |call.entries| {
      PickIs(m.world, call.entries[k]);
    }
  }

  lemma FailureIs(m: Machine, call: Call)
    requires m.status.Running? && CheckCall(m.world, call).None?
    requires CollectFor(m, call).failure.Some? || ProbeFails(m.conns, SocksOf(m, call))
    ensures Step(m, Select(call)).conns == Deactivate(m.conns, SocksOf(m, call))
  {
  }

  lemma RefusedCollects(m: Machine, call: Call, n: nat)
    requires Sound(m.reg) && m.status.Running? && CallInOrder(m.world, call) && RefusedAt(m, call, n)
    ensures |SocksOf(m, call)| == n
    ensures Step(m, Select(call)).conns == Deactivate(m.conns, SocksOf(m, call))
  {
    CallFaultIff(m.world, call);
    if n < |call.entries| {
      StopsAt(m, call, n);
    } else {
      assert call.entries[..n] == call.entries;
      CollectedAre(m, call);
      UnreadAre(m, call);
    }
    FailureIs(m, call);
  }

  lemma AskedAre(w: World, es: seq<(Val, Val)>, socks: seq<Sock>, c: nat)
    requires |socks| == |es| && forall i | 0 <= i < |es| :: SocketIs(w, es[i], socks[i])
    ensures AnyRead(socks, c) <==> ReadAsked(w, es, c)
    ensures AnyWrite(socks, c) <==> WriteAsked(w, es, c)
  {
    assert forall i | 0 <= i < |es| :: OnConnection(w, es[i], c) <==> socks[i].conn == c;
  }

  /**
   * A refused call removes exactly the events that the entries before the bad one ask for on their connections, and
   * leaves every other event alone.
   */
  lemma RefusalRemovesEvents(m: Machine, call: Call, n: nat, c: nat)
    requires Sound(m.reg) && m.status.Running? && CallInOrder(m.world, call) && RefusedAt(m, call, n)
    ensures var before, after := ConnOf(m.conns, c), ConnOf(Step(m, Select(call)).conns, c);
            after == before.(readActive := before.readActive && !ReadAsked(m.world, call.entries[..n], c),
                             writeActive := before.writeActive && !WriteAsked(m.world, call.entries[..n], c))
  {
    RefusedCollects(m, call, n);
    CollectedAre(m, call);
    DeactivateIs(m.conns, SocksOf(m, call), c);
    AskedAre(m.world, call.entries[..n], SocksOf(m, call), c);
  }
}
