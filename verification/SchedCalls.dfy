/** What single calls promise, over what follows them: sys_exofork's child, env_destroy's victim,
    and the one sender a sys_ipc_recv is answered by. */
module SchedCalls {
  import opened Queue
  import opened Sched
  import opened SchedInv
  import opened SchedRuns
  import opened SchedSlices

  /** e is the same but for the claim on it. */
  predicate SameBut(v: Env, w: Env) {
    w.id == v.id && w.killPending == v.killPending && w.recving == v.recving && (w.status == FREE <==> v.status == FREE)
  }

  lemma PickLeaves(a: State, d: nat, e: nat)
    requires Shape(a) && d < NCPU(a) && Slots(a.queue) && e < NENV
    ensures
      var r := Pick(a, d);
      && SameBut(a.envs[e], r.envs[e]) && r.freed == a.freed
      && r.phase == a.phase[d := r.phase[d]] && !r.phase[d].Sending?
  {
  }

  lemma SearchedLeaves(s: State, x: Step, e: nat)
    requires Refs(s) && Enabled(s, x) && (x.Schedule? || x.Recv? || x.Retry?) && e < NENV
    requires Inv(s)
    ensures
      var a := Searched(s, x);
      && a.phase == s.phase && a.freed == s.freed
      && (x.Recv? && s.cur[x.c] == Of(e) ==>
            a.envs[e].id == s.envs[e].id && a.envs[e].killPending == s.envs[e].killPending && a.envs[e].status != FREE)
      && (!(x.Recv? && s.cur[x.c] == Of(e)) ==> SameBut(s.envs[e], a.envs[e]))
  {
    hide Without, Inv;
  }

  /** What a pass through schedule leaves alone. */
  lemma SearchLeaves(s: State, x: Step, e: nat)
    requires Inv(s) && Refs(s) && Enabled(s, x) && (x.Schedule? || x.Recv? || x.Retry?) && e < NENV
    ensures
      var r := Next(s, x);
      && r.freed == s.freed && r.phase == s.phase[x.c := r.phase[x.c]] && !r.phase[x.c].Sending?
      && r.envs[e].id == s.envs[e].id && r.envs[e].killPending == s.envs[e].killPending
      && (s.envs[e].status != FREE ==> r.envs[e].status != FREE)
      && (!(x.Recv? && s.cur[x.c] == Of(e)) ==> r.envs[e].recving == s.envs[e].recving)
  {
    SearchesOrLogs(s, x);
    SearchedLeaves(s, x, e);
    PickLeaves(Searched(s, x), x.c, e);
    hide Inv, Pick, Next, Enabled, Searched;
  }

  lemma SearchesOrLogs(s: State, x: Step)
    requires Refs(s) && Enabled(s, x) && (x.Schedule? || x.Recv? || x.Retry?)
    ensures Slots(Searched(s, x).queue) && NCPU(Searched(s, x)) == NCPU(s)
    ensures
      var a, r := Searched(s, x), Next(s, x);
      || r == Pick(a, x.c)
      || (&& r.phase == s.phase[x.c := r.phase[x.c]] && !r.phase[x.c].Sending? && r.freed == s.freed
          && (r.envs == a.envs || (r.envs == s.envs && !x.Recv?)))
  {
    hide Pick, Without;
    if x.Recv? { assert Deschedule(Blocked(s, x.c), s.cur[x.c].e) == Blocked(s, x.c); }
  }

  // ---------------------------------------------------------------------------
  // sys_exofork

  /** The child is the caller's to act on, with the caller's priority, under a new id. */
  lemma ChildOfCaller(s: State, c: nat)
    requires Inv(s) && Refs(s) && Enabled(s, Fork(c))
    ensures
      var r, e, p := Next(s, Fork(c)), s.freeList[0], s.cur[c].e;
      && e < NENV && p < NENV && e != p && MayAct(r, c, e)
      && r.envs[e].parent == s.envs[p].id && r.envs[e].pri == s.envs[p].pri && r.envs[e].status == NOT_RUNNABLE
      && r.envs[e].pinned < 0 && !r.envs[e].running && !r.envs[e].killPending && r.envs[p] == s.envs[p]
      && (forall x: nat :: x < NENV && s.envs[x].status != FREE ==> s.envs[x].id != r.envs[e].id)
  {
    var e := s.freeList[0];
    CpuAt(s, c);
    EnvAt(s, s.cur[c].e);
    assert e in s.freeList && s.cur[c].e !in s.freeList;
    forall x: nat | x < NENV && s.envs[x].status != FREE ensures s.envs[x].id != Next(s, Fork(c)).envs[e].id {
      EnvAt(s, x);
    }
    hide Inv;
  }

  // ---------------------------------------------------------------------------
  // env_destroy

  /** e still is that incarnation, marked, and somebody is freeing it or waiting for that. */
  ghost predicate Doomed(s: State, e: nat, id: nat)
    requires Shape(s)
  {
    && e < NENV && s.envs[e].id == id && s.envs[e].status != FREE && s.envs[e].killPending
    && exists d: nat :: Handles(s, d, e)
  }

  lemma DoomedHandled(s: State, e: nat)
    requires Inv(s) && e < NENV && s.envs[e].status != FREE && s.envs[e].killPending
    ensures Doomed(s, e, s.envs[e].id)
  {
    EnvAt(s, e);
    hide Inv;
  }

  lemma MarkKept(s: State, x: Step, e: nat, id: nat)
    requires Inv(s) && Refs(s) && Enabled(s, x) && e < NENV
    requires id in s.freed || (s.envs[e].id == id && s.envs[e].status != FREE && s.envs[e].killPending)
    ensures
      var r := Next(s, x);
      id in r.freed || (r.envs[e].id == id && r.envs[e].status != FREE && r.envs[e].killPending)
  {
    if x.Schedule? || x.Recv? || x.Retry? {
      SearchLeaves(s, x, e);
      hide Inv, Next, Enabled;
    } else {
      assert x.Fork? ==> s.freeList[0] in s.freeList && (s.envs[e].status != FREE ==> e !in s.freeList);
      hide Inv, LockedSchedule, Receive, Pick, Without;
    }
  }

  lemma {:induction false} MarkLasts(s: State, steps: seq<Step>, e: nat, id: nat)
    requires Inv(s) && Legal(s, steps) && e < NENV
    requires id in s.freed || (s.envs[e].id == id && s.envs[e].status != FREE && s.envs[e].killPending)
    ensures
      var t := SchedRuns.Run(s, steps);
      id in t.freed || (t.envs[e].id == id && t.envs[e].status != FREE && t.envs[e].killPending)
    decreases |steps|
  {
    if steps != [] {
      InvRefs(s);
      StepInv(s, steps[0]);
      MarkKept(s, steps[0], e, id);
      hide Inv, Next, Enabled;
      MarkLasts(Next(s, steps[0]), steps[1..], e, id);
    }
  }

  /** Nobody escapes.  After env_destroy of an env, at any later moment of any run that incarnation
      has been freed, or it is still marked and some CPU is freeing it or waiting for it to be. */
  lemma DestroyLasts(s: State, c: nat, e: nat, steps: seq<Step>)
    requires Inv(s) && Refs(s) && Enabled(s, Destroy(c, e)) && Inv(Next(s, Destroy(c, e)))
    requires Legal(Next(s, Destroy(c, e)), steps)
    ensures
      var t, id := SchedRuns.Run(Next(s, Destroy(c, e)), steps), s.envs[e].id;
      id in t.freed || Doomed(t, e, id)
  {
    var t, id := SchedRuns.Run(Next(s, Destroy(c, e)), steps), s.envs[e].id;
    MarkLasts(Next(s, Destroy(c, e)), steps, e, id);
    if id !in t.freed { DoomedHandled(t, e); }
  }

  /** The CPU that runs a marked env frees it at its next pass through schedule. */
  lemma MarkedStops(s: State, c: nat, e: nat)
    requires Inv(s) && Refs(s) && c < NCPU(s) && s.cur[c] == Of(e) && e < NENV && s.envs[e].killPending
    requires s.phase[c].SchedStart?
    ensures Enabled(s, CheckKill(c)) && Next(s, CheckKill(c)).phase[c] == FreePages(e)
    ensures
      var a := Next(s, CheckKill(c));
      Refs(a) && Enabled(a, Free(c)) &&
      var r := Next(a, Free(c));
      && s.envs[e].id in r.freed && r.envs[e].status == FREE && r.freeList == [e] + s.freeList
      && e !in r.queue && !r.envs[e].killPending && r.envs[e].killDone
  {
    StepInv(s, CheckKill(c));
    var a := Next(s, CheckKill(c));
    InvRefs(a);
    CpuAt(a, c);
    assert QueueOk(a);
    hide Inv;
    if a.envs[e].status != RUNNABLE { assert e !in a.queue; }
  }

  // ---------------------------------------------------------------------------
  // sys_ipc_try_send

  /** c alone is between its two sections for e, and e takes no further sender. */
  ghost predicate Claimed(s: State, c: nat, e: nat)
    requires Shape(s)
  {
    && c < NCPU(s) && e < NENV && s.phase[c] == Sending(e) && !s.envs[e].recving
    && forall d: nat :: d < NCPU(s) && d != c ==> s.phase[d] != Sending(e)
  }

  /** e itself is not calling sys_ipc_recv again. */
  ghost predicate NotAgain(s: State, x: Step, c: nat, e: nat)
    requires Shape(s)
  {
    x.c != c && !(x.Recv? && x.c < NCPU(s) && s.cur[x.c] == Of(e))
  }

  lemma ClaimKept(s: State, x: Step, c: nat, e: nat)
    requires Inv(s) && Refs(s) && Enabled(s, x) && Claimed(s, c, e) && NotAgain(s, x, c, e)
    ensures Claimed(Next(s, x), c, e)
    ensures forall d: nat :: d < NCPU(s) && d != c ==> x != SendClaim(d, e)
  {
    if x.Schedule? || x.Recv? || x.Retry? {
      SearchLeaves(s, x, e);
      hide Inv, Next, Enabled;
    } else {
      hide Inv, LockedSchedule, Receive, Pick, Without;
    }
  }

  ghost predicate NeverAgain(s: State, steps: seq<Step>, c: nat, e: nat)
    requires Inv(s) && Legal(s, steps)
    decreases |steps|
  {
    InvRefs(s);
    steps == [] ||
    (NotAgain(s, steps[0], c, e) && (StepInv(s, steps[0]); NeverAgain(Next(s, steps[0]), steps[1..], c, e)))
  }

  /** One message for one receive: once c has claimed a receiver that nobody else is sending to, no
      other CPU claims it until c is done or the receiver asks again. */
  lemma {:induction false} OneSender(s: State, steps: seq<Step>, c: nat, e: nat)
    requires Inv(s) && Legal(s, steps) && Claimed(s, c, e) && NeverAgain(s, steps, c, e)
    ensures Claimed(SchedRuns.Run(s, steps), c, e)
    ensures forall d: nat :: SendClaim(d, e) !in steps
    decreases |steps|
  {
    if steps != [] {
      InvRefs(s);
      StepInv(s, steps[0]);
      ClaimKept(s, steps[0], c, e);
      assert forall d: nat :: steps[0] != SendClaim(d, e);
      hide Inv, Next, Enabled;
      OneSender(Next(s, steps[0]), steps[1..], c, e);
      assert steps == [steps[0]] + steps[1..];
    }
  }

  /** The claim itself, a send that fails, and one that succeeds. */
  lemma SendEffects(s: State, c: nat, e: nat)
    requires Inv(s) && Refs(s) && Enabled(s, SendClaim(c, e))
    requires forall d: nat :: d < NCPU(s) && d != c ==> s.phase[d] != Sending(e)
    ensures
      var a := Next(s, SendClaim(c, e));
      && Claimed(a, c, e) && Refs(a) && Enabled(a, SendAbort(c)) && Next(a, SendAbort(c)) == s
      && (Enabled(a, SendFinish(c)) ==>
            var r := Next(a, SendFinish(c));
            && r.queue == s.queue + [e] && r.envs == s.envs[e := s.envs[e].(recving := false, status := RUNNABLE)]
            && r.phase == s.phase && r.cur == s.cur)
  {
    StepInv(s, SendClaim(c, e));
    var a := Next(s, SendClaim(c, e));
    InvRefs(a);
    hide Inv;
    assert a.envs[e := a.envs[e].(recving := true)] == s.envs;
    assert a.phase[c := User] == s.phase;
  }

  // ---------------------------------------------------------------------------
  // sys_set_env_status and sys_ipc_recv

  /** The status is set, the env is queued if and only if it is RUNNABLE, at the end if it was not,
      and the others keep their places. */
  lemma StatusEffects(s: State, c: nat, e: nat, st: Status)
    requires Inv(s) && Refs(s) && Enabled(s, Step.Status(c, e, st))
    ensures
      var r := Next(s, Step.Status(c, e, st));
      && r.envs == s.envs[e := s.envs[e].(status := st)] && (e in r.queue <==> st == RUNNABLE)
      && Without(r.queue, e) == Without(s.queue, e)
      && (st == RUNNABLE && s.envs[e].status != RUNNABLE ==> r.queue == s.queue + [e])
      && (s.cur[c] == Of(e) ==> r.phase[c] == SchedStart(true))
  {
    assert QueueOk(s);
    hide Inv;
    if e !in s.queue {
      WithoutAbsent(s.queue, e);
      WithoutLast(s.queue, e);
    }
    WithoutAbsent(Without(s.queue, e), e);
  }

  lemma {:induction false} WithoutLast(q: seq<nat>, e: nat)
    requires e !in q
    ensures Without(q + [e], e) == q
  {
    if q == [] {
      assert [] + [e] == [e];
    } else {
      assert (q + [e])[1..] == q[1..] + [e] && q == [q[0]] + q[1..];
      WithoutLast(q[1..], e);
    }
  }

  /** The receiver takes a sender, is off the queue and off its CPU. */
  lemma ReceiveEffects(s: State, c: nat)
    requires Inv(s) && Refs(s) && Enabled(s, Recv(c))
    ensures
      var r, e := Next(s, Recv(c)), s.cur[c].e;
      && r.envs[e].recving && r.envs[e].status == NOT_RUNNABLE && !r.envs[e].running && e !in r.queue
      && Owner(r, c) != Of(e)
      && (forall x: nat :: x < NENV && x != e ==>
            r.envs[x].status == s.envs[x].status && r.envs[x].recving == s.envs[x].recving)
  {
    StepInv(s, Recv(c));
    CpuAt(Next(s, Recv(c)), c);
    assert QueueOk(Next(s, Recv(c)));
    hide Inv;
    ReceivePick(s, c);
  }

  lemma ReceivePick(s: State, c: nat)
    requires Inv(s) && Refs(s) && Enabled(s, Recv(c))
    ensures
      var r, e := Next(s, Recv(c)), s.cur[c].e;
      && r.envs[e].recving && r.envs[e].status == NOT_RUNNABLE && !r.envs[e].running
      && (forall x: nat :: x < NENV && x != e ==>
            r.envs[x].status == s.envs[x].status && r.envs[x].recving == s.envs[x].recving)
  {
    assert QueueOk(s);
    assert Distinct(s.queue);
    var a := Blocked(s, c);
    assert s.cur[c].e !in a.queue;
    hide Inv, Without;
  }
}
