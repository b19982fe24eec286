/** Saving and restoring event handlers: exactly when a select leaves them as they were. */
module SelectHandlers {
  import opened Prelude
  import opened SelectTypes
  import opened SelectProtocol

  /** Socket `i` is an upstream, is `u`, and was selected for reading. */
  predicate Reads(socks: seq<Sock>, i: nat, u: nat) {
    i < |socks| && !socks[i].downstream && socks[i].read && socks[i].up == u
  }

  predicate ReadsAny(socks: seq<Sock>, u: nat) {
    exists i :: 0 <= i < |socks| && Reads(socks, i, u)
  }

  predicate RequestReads(socks: seq<Sock>) {
    exists i :: 0 <= i < |socks| && socks[i].downstream && socks[i].read
  }

  /** What installing does to each handler. */
  lemma {:induction false} InstallForm(hs: Handlers, socks: seq<Sock>)
    ensures forall u :: ReadOf(Install(hs, socks).hs, u) == if ReadsAny(socks, u) then ReadUpstream else ReadOf(hs, u)
    ensures forall u :: u in Install(hs, socks).hs.upRead <==> u in hs.upRead || ReadsAny(socks, u)
    ensures Install(hs, socks).hs.reqRead == if RequestReads(socks) then ReadRequest else hs.reqRead
  {
    if socks != [] {
      var before, last := socks[..|socks| - 1], socks[|socks| - 1];
      InstallForm(hs, before);
      forall u
        ensures ReadsAny(socks, u) <==> ReadsAny(before, u) || Reads(socks, |before|, u)
      {
        if ReadsAny(before, u) {
          var i :| 0 <= i < |before| && Reads(before, i, u);
          assert Reads(socks, i, u);
        }
        if ReadsAny(socks, u) && !Reads(socks, |before|, u) {
          var i :| 0 <= i < |socks| && Reads(socks, i, u);
          assert Reads(before, i, u);
        }
      }
      assert RequestReads(socks) <==> RequestReads(before) || (last.downstream && last.read) by {
        assert forall i | 0 <= i < |before| :: before[i] == socks[i];
      }
    }
  }

  predicate WritesAny(socks: seq<Sock>, u: nat) {
    exists i :: 0 <= i < |socks| && !socks[i].downstream && socks[i].write && socks[i].up == u
  }

  predicate RequestWrites(socks: seq<Sock>) {
    exists i :: 0 <= i < |socks| && socks[i].downstream && socks[i].write
  }

  /** The same for the handlers for writing. */
  lemma {:induction false} InstallWrites(hs: Handlers, socks: seq<Sock>, u: nat)
    ensures WriteOf(Install(hs, socks).hs, u) == if WritesAny(socks, u) then WriteUpstream else WriteOf(hs, u)
    ensures Install(hs, socks).hs.reqWrite == if RequestWrites(socks) then WriteRequest else hs.reqWrite
  {
    if socks != [] {
      var before, last := socks[..|socks| - 1], socks[|socks| - 1];
      InstallWrites(hs, before, u);
      assert forall i | 0 <= i < |before| :: before[i] == socks[i];
    }
  }

  /** What each socket's slot saves: the handler in place when its turn comes. */
  lemma {:induction false} InstallSlots(hs: Handlers, socks: seq<Sock>, i: nat)
    requires i < |socks|
    ensures var s, t := socks[i], Install(hs, socks).socks[i];
            t.up == s.up && t.conn == s.conn && t.downstream == s.downstream && t.read == s.read
            && t.write == s.write && t.ref == s.ref && !t.readReady && !t.writeReady
    ensures !socks[i].downstream ==> Install(hs, socks).socks[i].prevRead
                                     == if socks[i].read then ReadOf(Install(hs, socks[..i]).hs, socks[i].up) else Null
  {
    var before := socks[..|socks| - 1];
    InstallForm(hs, before);
    if i < |before| {
      InstallSlots(hs, before, i);
      assert before[..i] == socks[..i];
    } else {
      assert before == socks[..i];
    }
  }

  /** Installing keeps every socket's reference. */
  lemma SameRefs(hs: Handlers, socks: seq<Sock>)
    ensures Refs(Install(hs, socks).socks) == Refs(socks)
  {
    forall i | 0 <= i < |socks|
      ensures Install(hs, socks).socks[i].ref == socks[i].ref
    {
      InstallSlots(hs, socks, i);
    }
  }

  /** The request's read handler is saved in the context, over and over if several sockets are downstream. */
  lemma {:induction false} SavedRequest(hs: Handlers, socks: seq<Sock>)
    ensures Install(hs, socks).prevRead.Null? || RequestReads(socks)
    ensures forall i | 0 <= i < |socks| && socks[i].downstream && socks[i].read
                       && (forall j | i < j < |socks| :: !(socks[j].downstream && socks[j].read)) ::
              Install(hs, socks).prevRead == Install(hs, socks[..i]).hs.reqRead
  {
    if socks != [] {
      var before, last := socks[..|socks| - 1], socks[|socks| - 1];
      SavedRequest(hs, before);
      assert forall i | 0 <= i < |before| :: before[i] == socks[i];
      if !(last.downstream && last.read) {
        forall i | 0 <= i < |socks| && socks[i].downstream && socks[i].read
                   && (forall j | i < j < |socks| :: !(socks[j].downstream && socks[j].read))
          ensures Install(hs, socks).prevRead == Install(hs, socks[..i]).hs.reqRead
        {
          assert i < |before| && before[..i] == socks[..i];
        }
      } else {
        assert before == socks[..|socks| - 1];
      }
    }
  }

  /** The handlers for writing are saved in the same places, though nothing restores them. */
  lemma {:induction false} SavedWrites(hs: Handlers, socks: seq<Sock>)
    ensures forall i | 0 <= i < |socks| && !socks[i].downstream ::
              Install(hs, socks).socks[i].prevWrite
              == if socks[i].write then WriteOf(Install(hs, socks[..i]).hs, socks[i].up) else Null
    ensures forall i | 0 <= i < |socks| && socks[i].downstream && socks[i].write
                       && (forall j | i < j < |socks| :: !(socks[j].downstream && socks[j].write)) ::
              Install(hs, socks).prevWrite == Install(hs, socks[..i]).hs.reqWrite
  {
    if socks != [] {
      var n := |socks| - 1;
      var before := socks[..n];
      SavedWrites(hs, before);
      assert forall i | 0 <= i < n :: before[i] == socks[i] && before[..i] == socks[..i];
    }
  }

  /** Write handlers are replaced, and restoring never touches them. */
  lemma {:induction false} WritesStay(hs: Handlers, socks: seq<Sock>, i: nat)
    requires i < |socks| && socks[i].write
    ensures socks[i].downstream ==> Install(hs, socks).hs.reqWrite == WriteRequest
    ensures !socks[i].downstream ==> WriteOf(Install(hs, socks).hs, socks[i].up) == WriteUpstream
  {
    if i < |socks| - 1 {
      WritesStay(hs, socks[..|socks| - 1], i);
    }
  }

  lemma {:induction false} NoWrites(hs: Handlers, socks: seq<Sock>)
    requires forall i | 0 <= i < |socks| :: !socks[i].write
    ensures Install(hs, socks).hs.upWrite == hs.upWrite && Install(hs, socks).hs.reqWrite == hs.reqWrite
  {
    if socks != [] {
      NoWrites(hs, socks[..|socks| - 1]);
    }
  }

  /** What restoring does: it fails on the first missing handler; otherwise the last slot of each upstream wins. */
  lemma {:induction false} RestoreForm(hs: Handlers, prev: Handler, socks: seq<Sock>)
    ensures Restore(hs, prev, socks).Some?
       <==> forall i | 0 <= i < |socks| :: !(if socks[i].downstream then prev else socks[i].prevRead).Null?
    ensures Restore(hs, prev, socks).Some? ==>
              var r := Restore(hs, prev, socks).value;
              && r.upWrite == hs.upWrite && r.reqWrite == hs.reqWrite
              && r.reqRead == (if exists i :: 0 <= i < |socks| && socks[i].downstream then prev else hs.reqRead)
  {
    if socks != [] {
      var before, last := socks[..|socks| - 1], socks[|socks| - 1];
      RestoreForm(hs, prev, before);
      assert forall i | 0 <= i < |before| :: before[i] == socks[i];
    }
  }

  /** Socket `i` is the last upstream socket that is `u`. */
  predicate LastOf(socks: seq<Sock>, i: nat, u: nat) {
    i < |socks| && !socks[i].downstream && socks[i].up == u
    && forall j | i < j < |socks| :: socks[j].downstream || socks[j].up != u
  }

  lemma {:induction false} RestoreOther(hs: Handlers, prev: Handler, socks: seq<Sock>, u: nat)
    requires Restore(hs, prev, socks).Some?
    requires forall i | 0 <= i < |socks| :: socks[i].downstream || socks[i].up != u
    ensures u in Restore(hs, prev, socks).value.upRead <==> u in hs.upRead
    ensures ReadOf(Restore(hs, prev, socks).value, u) == ReadOf(hs, u)
  {
    if socks != [] {
      var before := socks[..|socks| - 1];
      assert forall i | 0 <= i < |before| :: before[i] == socks[i];
      RestoreOther(hs, prev, before, u);
    }
  }

  lemma {:induction false} RestoreLast(hs: Handlers, prev: Handler, socks: seq<Sock>, k: nat, u: nat)
    requires Restore(hs, prev, socks).Some? && LastOf(socks, k, u)
    ensures u in Restore(hs, prev, socks).value.upRead
    ensures Restore(hs, prev, socks).value.upRead[u] == socks[k].prevRead
  {
    var before, last := socks[..|socks| - 1], socks[|socks| - 1];
    if k < |before| {
      assert before[k] == socks[k];
      assert LastOf(before, k, u);
      RestoreLast(hs, prev, before, k, u);
    }
  }

  // ---------------------------------------------------------------------------
  // The exact condition
  // ---------------------------------------------------------------------------

  predicate ReadOnly(socks: seq<Sock>) {
    forall i | 0 <= i < |socks| :: socks[i].read && !socks[i].write
  }

  /** No two sockets share the place where their handler is kept. */
  predicate SeparateHandlers(socks: seq<Sock>) {
    forall i, j | 0 <= i < j < |socks| ::
      socks[i].downstream != socks[j].downstream || (!socks[i].downstream && socks[i].up != socks[j].up)
  }

  predicate HaveHandlers(hs: Handlers, socks: seq<Sock>) {
    forall i | 0 <= i < |socks| :: !(if socks[i].downstream then hs.reqRead else ReadOf(hs, socks[i].up)).Null?
  }

  /** Every socket is selected for reading only, none shares a handler with another, and each has one to save. */
  predicate Restorable(hs: Handlers, socks: seq<Sock>) {
    ReadOnly(socks) && SeparateHandlers(socks) && HaveHandlers(hs, socks)
  }

  function Undone(hs: Handlers, socks: seq<Sock>): Option<Handlers> {
    var a := Install(hs, socks);
    Restore(a.hs, a.prevRead, a.socks)
  }

  lemma SeparateSlot(hs: Handlers, socks: seq<Sock>, i: nat)
    requires Restorable(hs, socks) && i < |socks|
    ensures !socks[i].downstream ==> Install(hs, socks).socks[i].prevRead == ReadOf(hs, socks[i].up)
    ensures socks[i].downstream ==> Install(hs, socks).prevRead == hs.reqRead
  {
    InstallSlots(hs, socks, i);
    InstallForm(hs, socks[..i]);
    SavedRequest(hs, socks);
    if socks[i].downstream {
      assert !RequestReads(socks[..i]);
    } else {
      assert !ReadsAny(socks[..i], socks[i].up);
    }
  }

  lemma RestorableIsUndone(hs: Handlers, socks: seq<Sock>)
    requires Restorable(hs, socks)
    ensures Undone(hs, socks) == Some(hs)
  {
    var a := Install(hs, socks);
    InstallForm(hs, socks);
    NoWrites(hs, socks);
    RestoreForm(a.hs, a.prevRead, a.socks);
    forall i | 0 <= i < |socks|
      ensures a.socks[i].downstream == socks[i].downstream && a.socks[i].up == socks[i].up
      ensures (if a.socks[i].downstream then a.prevRead else a.socks[i].prevRead)
           == if socks[i].downstream then hs.reqRead else ReadOf(hs, socks[i].up)
    {
      InstallSlots(hs, socks, i);
      SeparateSlot(hs, socks, i);
    }
    var r := Undone(hs, socks).value;
    forall u
      ensures (u in r.upRead <==> u in hs.upRead) && ReadOf(r, u) == ReadOf(hs, u)
    {
      if i: nat :| i < |socks| && !socks[i].downstream && socks[i].up == u {
        assert Reads(socks, i, u);
        assert LastOf(a.socks, i, u);
        RestoreLast(a.hs, a.prevRead, a.socks, i, u);
      } else {
        assert !ReadsAny(socks, u);
        RestoreOther(a.hs, a.prevRead, a.socks, u);
      }
    }
    SameReads(r, hs);
  }

  lemma SameReads(r: Handlers, hs: Handlers)
    requires forall u :: (u in r.upRead <==> u in hs.upRead) && ReadOf(r, u) == ReadOf(hs, u)
    ensures r.upRead == hs.upRead
  {
    forall u | u in r.upRead
      ensures u in hs.upRead && r.upRead[u] == hs.upRead[u]
    {
      assert ReadOf(r, u) == ReadOf(hs, u);
    }
    forall u | u in hs.upRead
      ensures u in r.upRead
    {
      assert ReadOf(r, u) == ReadOf(hs, u);
    }
  }

  lemma UndoneMeansReadOnly(hs: Handlers, socks: seq<Sock>, i: nat)
    requires HandlersFree(hs) && Undone(hs, socks) == Some(hs) && i < |socks|
    requires socks[i].read || socks[i].write
    ensures socks[i].read && !socks[i].write
  {
    var a := Install(hs, socks);
    RestoreForm(a.hs, a.prevRead, a.socks);
    if socks[i].write {
      WritesStay(hs, socks, i);
    }
  }

  lemma UndoneMeansOneDownstream(hs: Handlers, socks: seq<Sock>, i: nat, j: nat)
    requires HandlersFree(hs) && Undone(hs, socks) == Some(hs) && ReadOnly(socks)
    requires i < j < |socks| && socks[i].downstream
    ensures !socks[j].downstream
  {
    if socks[j].downstream {
      var a := Install(hs, socks);
      var k := LastDownstream(socks, j);
      SavedRequest(hs, socks);
      InstallForm(hs, socks[..k]);
      InstallSlots(hs, socks, j);
      RestoreForm(a.hs, a.prevRead, a.socks);
    }
  }

  lemma UndoneMeansOwnUpstream(hs: Handlers, socks: seq<Sock>, i: nat, j: nat)
    requires HandlersFree(hs) && Undone(hs, socks) == Some(hs) && ReadOnly(socks)
    requires i < j < |socks| && !socks[i].downstream && !socks[j].downstream
    ensures socks[i].up != socks[j].up
  {
    var u := socks[j].up;
    if socks[i].up == u {
      var a := Install(hs, socks);
      var k := LastUpstream(socks, j);
      InstallSlots(hs, socks, k);
      InstallForm(hs, socks[..k]);
      assert Reads(socks[..k], i, u);
      forall l | k < l < |socks|
        ensures a.socks[l].downstream || a.socks[l].up != u
      {
        InstallSlots(hs, socks, l);
      }
      RestoreLast(a.hs, a.prevRead, a.socks, k, u);
    }
  }

  lemma LastDownstream(socks: seq<Sock>, j: nat) returns (k: nat)
    requires j < |socks| && socks[j].downstream && ReadOnly(socks)
    ensures j <= k < |socks| && socks[k].downstream
    ensures forall l | k < l < |socks| :: !(socks[l].downstream && socks[l].read)
  {
    k := j;
    for n := j + 1 to |socks|
      invariant j <= k < n && socks[k].downstream
      invariant forall l | k < l < n :: !(socks[l].downstream && socks[l].read)
    {
      if socks[n].downstream {
        k := n;
      }
    }
  }

  lemma LastUpstream(socks: seq<Sock>, j: nat) returns (k: nat)
    requires j < |socks| && !socks[j].downstream
    ensures j <= k && LastOf(socks, k, socks[j].up)
  {
    k := j;
    for n := j + 1 to |socks|
      invariant j <= k < n && !socks[k].downstream && socks[k].up == socks[j].up
      invariant forall l | k < l < n :: socks[l].downstream || socks[l].up != socks[j].up
    {
      if !socks[n].downstream && socks[n].up == socks[j].up {
        k := n;
      }
    }
  }

  lemma UndoneMeansHandlers(hs: Handlers, socks: seq<Sock>, i: nat)
    requires Undone(hs, socks).Some? && ReadOnly(socks) && SeparateHandlers(socks) && i < |socks|
    ensures !(if socks[i].downstream then hs.reqRead else ReadOf(hs, socks[i].up)).Null?
  {
    var a := Install(hs, socks);
    RestoreForm(a.hs, a.prevRead, a.socks);
    InstallSlots(hs, socks, i);
    InstallForm(hs, socks[..i]);
    SavedRequest(hs, socks);
    assert !RequestReads(socks[..i]) || !socks[i].downstream;
    assert !ReadsAny(socks[..i], socks[i].up) || socks[i].downstream;
  }

  /**
   * Started with none of the module's handlers in place, installing and then restoring gives back every
   * handler, without aborting, exactly if every socket was selected for reading only, no two sockets share
   * a handler, and each had a handler to save.
   */
  lemma RestoreIff(hs: Handlers, socks: seq<Sock>)
    requires HandlersFree(hs)
    requires forall i | 0 <= i < |socks| :: socks[i].read || socks[i].write
    ensures Undone(hs, socks) == Some(hs) <==> Restorable(hs, socks)
  {
    if Restorable(hs, socks) {
      RestorableIsUndone(hs, socks);
    }
    if Undone(hs, socks) == Some(hs) {
      forall i | 0 <= i < |socks|
        ensures socks[i].read && !socks[i].write
      {
        UndoneMeansReadOnly(hs, socks, i);
      }
      forall i, j | 0 <= i < j < |socks|
        ensures socks[i].downstream != socks[j].downstream || (!socks[i].downstream && socks[i].up != socks[j].up)
      {
        if socks[i].downstream {
          UndoneMeansOneDownstream(hs, socks, i, j);
        } else if !socks[j].downstream {
          UndoneMeansOwnUpstream(hs, socks, i, j);
        }
      }
      forall i | 0 <= i < |socks|
        ensures !(if socks[i].downstream then hs.reqRead else ReadOf(hs, socks[i].up)).Null?
      {
        UndoneMeansHandlers(hs, socks, i);
      }
    }
  }
}
