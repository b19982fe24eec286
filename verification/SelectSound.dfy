/** What every step keeps of the registry: live references are numbered within it, and freed ones are free. */
module SelectSound {
  import opened Prelude
  import opened SelectLua
  import opened SelectTypes
  import opened SelectProtocol
  import opened SelectCollect
  import opened SelectHandlers

  lemma StillLive(g: Registry, ref: nat, a: seq<Sock>, b: seq<Sock>)
    requires AllLive(g, ref, a) && Refs(a) == Refs(b)
    ensures AllLive(g, ref, b)
  {
    assert forall i | 0 <= i < |b| :: b[i].ref == Refs(b)[i] == Refs(a)[i] == a[i].ref;
  }

  lemma DiscardSound(m: Machine)
    requires m.slot.Some? && AllLive(m.reg, m.slot.value.ref, m.slot.value.socks) && Sound(m.reg)
    ensures !Discard(m).status.Crashed? ==> Sound(Discard(m).reg)
  {
    var ctx := m.slot.value;
    var refs := Refs(ctx.socks);
    var all := [ctx.ref] + refs;
    assert forall i | 0 <= i < |refs| :: all[i + 1] == refs[i] == ctx.socks[i].ref;
    assert all[0] == ctx.ref;
    ReleaseAllSound(m.reg, refs);
    ReleaseSound(ReleaseAll(m.reg, refs), ctx.ref);
  }

  lemma WaitSound(m: Machine, socks: seq<Sock>, ref: nat, arms: bool)
    requires AllLive(m.reg, ref, socks) && Sound(m.reg)
    ensures !Wait(m, socks, ref, arms).status.Crashed? ==> Sound(Wait(m, socks, ref, arms).reg)
  {
    var r := Registered(m, socks, ref, arms);
    SameRefs(m.hs, socks);
    StillLive(m.reg, ref, socks, r.slot.value.socks);
    DiscardSound(r);
  }

  lemma SelectKeepsSound(m: Machine, call: Call)
    requires Sound(m.reg) && m.slot.None?
    ensures !SelectStep(m, call).status.Crashed? ==> Sound(SelectStep(m, call).reg)
  {
    if CheckCall(m.world, call).None? {
      var c := CollectFor(m, call);
      CallCollects(m, call);
      if c.failure.Some? || ProbeFails(m.conns, c.socks) {
        FailureLeaks(m, call);
      } else if !BytesWaiting(m.conns, c.socks) {
        CollectedLive(m, call);
        WaitSound(m.(reg := c.reg), c.socks, RefOf(m.reg), Arms(call));
      }
    }
  }

  lemma ResumeSound(m: Machine)
    requires m.slot.Some? && AllLive(m.reg, m.slot.value.ref, m.slot.value.socks) && Sound(m.reg)
    ensures !Resume(m).status.Crashed? ==> Sound(Resume(m).reg)
  {
    var socks := m.slot.value.socks;
    var flagged := FlagAll(m.conns, socks);
    assert Refs(flagged) == Refs(socks);
    StillLive(m.reg, m.slot.value.ref, socks, flagged);
    DiscardSound(m.(slot := Some(m.slot.value.(socks := flagged))));
  }

  /** A context is registered only while the thread is suspended with the module's cleanup hook. */
  predicate Suspended(m: Machine) {
    m.slot.Some? ==> m.status.Yielded? && m.cleanup
  }

  lemma StepSuspended(m: Machine, e: Event)
    requires Suspended(m)
    ensures !Step(m, e).status.Crashed? ==> Suspended(Step(m, e))
  {
    match e
    case Select(call) =>
      if m.status.Running? && CheckCall(m.world, call).None? {
        CallSuspends(m, call);
      }
    case QueueDrains =>
      if m.slot.Some? && m.queued > 0 {
        CompleteSuspended(m.(queued := m.queued - 1, slot := Some(m.slot.value.(posted := false))));
      }
    case _ =>
  }

  lemma CallSuspends(m: Machine, call: Call)
    requires Suspended(m) && m.status.Running?
    ensures !SelectStep(m, call).status.Crashed? ==> Suspended(SelectStep(m, call))
  {
  }

  lemma CompleteSuspended(m: Machine)
    requires Suspended(m)
    ensures !Complete(m).status.Crashed? ==> Suspended(Complete(m))
  {
  }

  /** Every step keeps the registry in order, as long as the registered context holds its references. */
  lemma StepSound(m: Machine, e: Event)
    requires Sound(m.reg)
    requires Suspended(m) && (m.slot.Some? ==> AllLive(m.reg, m.slot.value.ref, m.slot.value.socks))
    ensures !Step(m, e).status.Crashed? ==> Sound(Step(m, e).reg)
  {
    match e
    case Select(call) =>
      if m.slot.None? {
        SelectKeepsSound(m, call);
      }
    case QueueDrains =>
      if m.slot.Some? && m.queued > 0 {
        var taken := m.(queued := m.queued - 1, slot := Some(m.slot.value.(posted := false)));
        ResumeSound(taken.(cleanup := false));
        ResumeSound(taken.(cleanup := false, resumer := SelectResume));
      }
    case Killed =>
      if m.slot.Some? {
        DiscardSound(m);
      }
    case _ =>
  }
}
