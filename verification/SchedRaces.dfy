/** Three env_sched_lock sections act on what was tested before the lock was taken, or is not
    tested at all: sys_set_env_status on an env that envid2env found, the wake-up in
    sys_ipc_try_send, and sys_ipc_recv.  For each: exactly when it keeps the two lists, on the
    links themselves, and an interleaving in which it does not. */
module SchedRaces {
  import opened Queue
  import opened Sched
  import opened SchedInv

  // ---------------------------------------------------------------------------
  // sys_set_env_status

  /** What its section does to the links of env_sched_list. */
  function SetLinks(q: Links, was: Status, e: nat, st: Status): (r: Links)
    requires e < |q.next| == |q.prev|
  {
    if st == RUNNABLE && was != RUNNABLE then Appended(q, e)
    else if st == NOT_RUNNABLE && was != NOT_RUNNABLE then Unlinked(q, e)
    else q
  }

  /** The run queue stays exact if and only if the env is not free, or is made RUNNABLE, or its
      stale links agree with the queue by chance; the free list stays exact if and only if the
      env is not free. */
  lemma SetStatusKeepsListsIff(s: State, q: Links, c: nat, e: nat, st: Status)
    requires Inv(s) && c < NCPU(s) && e < NENV && st != FREE
    requires Represents(q, s.queue) && e < |q.next|
    ensures |q.next| == |q.prev|
    ensures
      var r, l, was := SetStatus(s, c, e, st), SetLinks(q, s.envs[e].status, e, st), s.envs[e].status;
      && (QueueOk(r) && Represents(l, r.queue) <==> was != FREE || st == RUNNABLE || Harmless(q, s.queue, e))
      && (FreeListOk(r) <==> was != FREE)
  {
    var r, was := SetStatus(s, c, e, st), s.envs[e].status;
    assert ListsOk(s);
    hide Inv;
    SetStatusQueue(s, c, e, st);
    SetStatusFree(s, c, e, st);
    hide QueueOk, FreeListOk, ListsOk;
    if e !in s.queue {
      AppendNew(q, s.queue, e);
      UnlinkStaleIff(q, s.queue, e);
      WithoutAbsent(s.queue, e);
    } else {
      var k := IndexOf(s.queue, e);
      UnlinkMember(q, s.queue, k);
      WithoutAt(s.queue, e, k);
    }
    hide Represents, Harmless, Unlinked, Appended, Without;
  }

  /** The free list is not looked at. */
  lemma SetStatusFree(s: State, c: nat, e: nat, st: Status)
    requires Shape(s) && ListsOk(s) && c < NCPU(s) && e < NENV && st != FREE
    ensures FreeListOk(SetStatus(s, c, e, st)) <==> s.envs[e].status != FREE
  {
    var r := SetStatus(s, c, e, st);
    if s.envs[e].status == FREE {
      assert e in s.freeList && r.freeList == s.freeList && r.envs[e].status == st;
    }
  }

  /** As a sequence the queue is always exact. */
  lemma SetStatusQueue(s: State, c: nat, e: nat, st: Status)
    requires Shape(s) && ListsOk(s) && c < NCPU(s) && e < NENV && st != FREE
    ensures QueueOk(SetStatus(s, c, e, st))
  {
    if e !in s.queue { AppendDistinct(s.queue, e); }
  }

  /** The interleaving: c has found e with envid2env; d, which is freeing e, ends that first.  The
      section then takes an env on the free list for a live one. */
  lemma FreedBeforeStatus(s: State, c: nat, d: nat, e: nat, st: Status)
    requires Inv(s) && Refs(s) && c < NCPU(s) && d < NCPU(s) && c != d && st != FREE
    requires s.phase[c] == User && MayAct(s, c, e) && s.phase[d] == FreePages(e)
    ensures
      var r := Next(s, Free(d));
      && Inv(r) && r.phase[c] == User && r.envs[e].status == FREE
      && e in SetStatus(r, c, e, st).freeList && !FreeListOk(SetStatus(r, c, e, st))
  {
    StepInv(s, Free(d));
    var r := Next(s, Free(d));
    assert r.freeList == [e] + s.freeList && e in r.freeList;
    var t := SetStatus(r, c, e, st);
    assert t.freeList == r.freeList && t.envs[e].status == st;
  }

  // ---------------------------------------------------------------------------
  // The wake-up in sys_ipc_try_send

  function Woken(s: State, c: nat, e: nat): (r: State)
    requires Shape(s) && c < NCPU(s) && e < NENV
  {
    Goto(WithEnv(s, e, s.envs[e].(status := RUNNABLE)).(queue := s.queue + [e]), c, User)
  }

  /** The run queue stays exact if and only if the receiver is not RUNNABLE already, the free list
      if and only if it is not free: both, if and only if it is still NOT_RUNNABLE. */
  lemma WakeKeepsListsIff(s: State, c: nat, e: nat)
    requires Inv(s) && c < NCPU(s) && e < NENV
    ensures QueueOk(Woken(s, c, e)) <==> s.envs[e].status != RUNNABLE
    ensures FreeListOk(Woken(s, c, e)) <==> s.envs[e].status != FREE
  {
    var r := Woken(s, c, e);
    if s.envs[e].status == RUNNABLE {
      var i := IndexOf(s.queue, e);
      assert r.queue[i] == r.queue[|s.queue|];
    } else {
      AppendDistinct(s.queue, e);
      if s.envs[e].status == FREE { assert e in s.freeList; }
    }
  }

  /** c claims the receiver, its parent d makes it RUNNABLE, c wakes it: it is queued twice. */
  lemma WokenBeforeWake(s: State, c: nat, d: nat, e: nat)
    requires Inv(s) && Refs(s) && Enabled(s, SendClaim(c, e)) && s.envs[e].status == NOT_RUNNABLE
    requires d < NCPU(s) && d != c && s.phase[d] == User && MayAct(s, d, e)
    ensures
      var a := Next(s, SendClaim(c, e));
      Inv(a) && Refs(a) && Enabled(a, Step.Status(d, e, RUNNABLE)) &&
      var b := Next(a, Step.Status(d, e, RUNNABLE));
      Inv(b) && b.phase[c] == Sending(e) && b.envs[e].status == RUNNABLE && !QueueOk(Woken(b, c, e))
  {
    StepInv(s, SendClaim(c, e));
    var a := Next(s, SendClaim(c, e));
    InvRefs(a);
    StepInv(a, Step.Status(d, e, RUNNABLE));
    WakeKeepsListsIff(Next(a, Step.Status(d, e, RUNNABLE)), c, e);
  }

  /** c claims the receiver, d, which is freeing it, ends that, c wakes it: it is on both lists. */
  lemma FreedBeforeWake(s: State, c: nat, d: nat, e: nat)
    requires Inv(s) && Refs(s) && Enabled(s, SendClaim(c, e))
    requires d < NCPU(s) && d != c && s.phase[d] == FreePages(e)
    ensures
      var a := Next(s, SendClaim(c, e));
      Inv(a) && Refs(a) && Enabled(a, Free(d)) &&
      var b := Next(a, Free(d));
      Inv(b) && b.phase[c] == Sending(e) && b.envs[e].status == FREE && !FreeListOk(Woken(b, c, e))
  {
    StepInv(s, SendClaim(c, e));
    var a := Next(s, SendClaim(c, e));
    InvRefs(a);
    StepInv(a, Free(d));
    WakeKeepsListsIff(Next(a, Free(d)), c, e);
  }

  // ---------------------------------------------------------------------------
  // sys_ipc_recv

  /** It takes its caller off the run queue without a test: the queue is then exactly what it
      should be if and only if the caller was RUNNABLE, or its stale links agree by chance. */
  lemma ReceiveKeepsQueueIff(s: State, q: Links, c: nat, e: nat)
    requires Inv(s) && c < NCPU(s) && s.cur[c] == Of(e) && e < NENV
    requires Represents(q, s.queue) && e < |q.next|
    ensures |q.next| == |q.prev|
    ensures QueueOk(Blocked(s, c))
    ensures Represents(Unlinked(q, e), Blocked(s, c).queue) <==>
            s.envs[e].status == RUNNABLE || Harmless(q, s.queue, e)
  {
    if e in s.queue {
      var k := IndexOf(s.queue, e);
      UnlinkMember(q, s.queue, k);
      WithoutAt(s.queue, e, k);
    } else {
      UnlinkStaleIff(q, s.queue, e);
      WithoutAbsent(s.queue, e);
    }
  }

  /** A parent can make a running child NOT_RUNNABLE; the child, still current on its CPU, is then
      free to call sys_ipc_recv. */
  lemma BlockedWhileRunning(s: State, c: nat, d: nat, e: nat)
    requires Inv(s) && Refs(s) && c < NCPU(s) && s.phase[c] == User && s.cur[c] == Of(e)
    requires Enabled(s, Step.Status(d, e, NOT_RUNNABLE)) && d != c
    ensures
      var r := Next(s, Step.Status(d, e, NOT_RUNNABLE));
      && Inv(r) && Refs(r) && r.phase == s.phase && r.cur == s.cur
      && r.envs[e].status == NOT_RUNNABLE && e !in r.queue
  {
    StepInv(s, Step.Status(d, e, NOT_RUNNABLE));
    var r := Next(s, Step.Status(d, e, NOT_RUNNABLE));
    InvRefs(r);
    assert CpuOk(s, c) && CpuOk(s, d);
  }

  /** One more status change by the same parent. */
  lemma AnotherStatus(s: State, q: Links, d: nat, x: nat, st: Status)
    requires Inv(s) && Refs(s) && Represents(q, s.queue) && |q.next| == NENV
    requires Enabled(s, Step.Status(d, x, st)) && s.cur[d] != Of(x)
    requires (st == NOT_RUNNABLE) == (s.envs[x].status == RUNNABLE)
    ensures
      var r := Next(s, Step.Status(d, x, st));
      && |q.next| == |q.prev| && Inv(r) && Refs(r) && r.phase == s.phase && r.cur == s.cur
      && r.queue == (if st == RUNNABLE then s.queue + [x] else Without(s.queue, x))
      && Represents(SetLinks(q, s.envs[x].status, x, st), r.queue)
      && (forall y: nat :: y < NENV && y != x ==> r.envs[y] == s.envs[y]) && r.envs[x] == s.envs[x].(status := st)
      && (forall y: nat :: MayAct(s, d, y) ==> MayAct(r, d, y))
  {
    StepInv(s, Step.Status(d, x, st));
    InvRefs(Next(s, Step.Status(d, x, st)));
    SetStatusKeepsListsIff(s, q, d, x, st);
  }

  /** c runs e and d runs the parent of e, x and z; e and x are neighbours in the queue and z is
      blocked. */
  ghost predicate Family(s: State, q: Links, c: nat, d: nat, e: nat, x: nat, z: nat, a: seq<nat>, b: seq<nat>) {
    && Inv(s) && Refs(s) && Represents(q, s.queue) && |q.next| == NENV && s.queue == a + [e, x] + b
    && c < NCPU(s) && d < NCPU(s) && c != d && s.phase[c] == User && s.phase[d] == User && s.cur[c] == Of(e)
    && MayAct(s, d, e) && MayAct(s, d, x) && MayAct(s, d, z) && s.envs[z].status == NOT_RUNNABLE
    && s.cur[d].e != e && s.cur[d].e != x && s.cur[d].e != z
  }

  /** The parent's three status changes: e and x off the queue, z on. */
  function ThreeSteps(d: nat, e: nat, x: nat, z: nat): (r: seq<Step>) {
    [Step.Status(d, e, NOT_RUNNABLE), Step.Status(d, x, NOT_RUNNABLE), Step.Status(d, z, RUNNABLE)]
  }

  lemma Neighbours(s: seq<nat>, a: seq<nat>, e: nat, x: nat, b: seq<nat>)
    requires Distinct(s) && s == a + [e, x] + b
    ensures e in s && x in s && e != x && e !in a + b
    ensures Without(s, e) == a + [x] + b && Without(a + [x] + b, x) == a + b
    ensures forall y :: y in a + b ==> y in s
  {
    hide Without;
    var k := |a|;
    assert s[k] == e && s[k + 1] == x;
    assert s == a + [e] + ([x] + b) && a + [x] + b == a + ([x] + b);
    TakenOut(s, a, e, [x] + b);
    TakenOut(a + [x] + b, a, x, b);
    forall y | y in a + b ensures y in s && y != e { assert y in a + [x] + b; }
  }

  lemma TakenOut(s: seq<nat>, a: seq<nat>, e: nat, b: seq<nat>)
    requires Distinct(s) && s == a + [e] + b
    ensures Distinct(a + b) && e !in a + b && Without(s, e) == a + b
  {
    hide Without;
    var k := |a|;
    assert s[k] == e;
    WithoutAt(s, e, k);
    DropDistinct(s, k);
    assert Drop(s, k) == a + b;
  }

  lemma InFamily(s: State, q: Links, c: nat, d: nat, e: nat, x: nat, z: nat, a: seq<nat>, b: seq<nat>)
    requires Family(s, q, c, d, e, x, z, a, b)
    ensures e in s.queue && x in s.queue && z !in s.queue && e != x && e != z && x != z
    ensures s.envs[e].status == RUNNABLE && s.envs[x].status == RUNNABLE
    ensures Without(s.queue, e) == a + [x] + b && Without(a + [x] + b, x) == a + b
    ensures z !in a + b && e !in a + b + [z]
  {
    assert ListsOk(s);
    hide Inv, Represents, Without;
    Neighbours(s.queue, a, e, x, b);
  }

  lemma FirstOne(s: State, q: Links, c: nat, d: nat, e: nat, x: nat, z: nat, a: seq<nat>, b: seq<nat>)
    requires Family(s, q, c, d, e, x, z, a, b)
    ensures |q.next| == |q.prev| && e < |q.next|
    ensures
      var xs := ThreeSteps(d, e, x, z);
      Enabled(s, xs[0]) &&
      var s1, l := Next(s, xs[0]), Unlinked(q, e);
      && Inv(s1) && Refs(s1) && Enabled(s1, xs[1]) && s1.phase == s.phase && s1.cur == s.cur
      && s1.queue == a + [x] + b && Represents(l, s1.queue) && |l.next| == NENV
      && s1.envs[x] == s.envs[x] && s1.envs[z] == s.envs[z] && MayAct(s1, d, z)
  {
    InFamily(s, q, c, d, e, x, z, a, b);
    hide Inv, Represents, Without, Refs, Next, Unlinked;
    AnotherStatus(s, q, d, e, NOT_RUNNABLE);
  }

  lemma FirstTwo(s: State, q: Links, c: nat, d: nat, e: nat, x: nat, z: nat, a: seq<nat>, b: seq<nat>)
    requires Family(s, q, c, d, e, x, z, a, b)
    ensures |q.next| == |q.prev|
    ensures
      var xs := ThreeSteps(d, e, x, z);
      Enabled(s, xs[0]) && Refs(Next(s, xs[0])) && Enabled(Next(s, xs[0]), xs[1]) &&
      var s2, l := Next(Next(s, xs[0]), xs[1]), Unlinked(Unlinked(q, e), x);
      && Inv(s2) && Refs(s2) && Enabled(s2, xs[2]) && s2.phase == s.phase && s2.cur == s.cur && s2.queue == a + b
      && Represents(l, s2.queue) && |l.next| == NENV
      && s2.envs[x].status == NOT_RUNNABLE && s2.envs[z].status == NOT_RUNNABLE
  {
    InFamily(s, q, c, d, e, x, z, a, b);
    FirstOne(s, q, c, d, e, x, z, a, b);
    var s1 := Next(s, ThreeSteps(d, e, x, z)[0]);
    hide Inv, Represents, Without, Refs, Next, Unlinked, MayAct;
    AnotherStatus(s1, Unlinked(q, e), d, x, NOT_RUNNABLE);
  }

  /** The scheduler's side: the three steps can be taken and leave a, b, z. */
  lemma FamilySteps(s: State, q: Links, c: nat, d: nat, e: nat, x: nat, z: nat, a: seq<nat>, b: seq<nat>)
    requires Family(s, q, c, d, e, x, z, a, b)
    ensures |q.next| == |q.prev|
    ensures
      var xs := ThreeSteps(d, e, x, z);
      Enabled(s, xs[0]) && Refs(Next(s, xs[0])) && Enabled(Next(s, xs[0]), xs[1]) &&
      var s2 := Next(Next(s, xs[0]), xs[1]);
      Refs(s2) && Enabled(s2, xs[2]) &&
      var t, l := Next(s2, xs[2]), Appended(Unlinked(Unlinked(q, e), x), z);
      && Inv(t) && t.phase[c] == User && t.cur[c] == Of(e) && t.queue == a + b + [z] && Represents(l, t.queue)
      && t.envs[x].status == NOT_RUNNABLE && e < |l.next| == |l.prev|
  {
    InFamily(s, q, c, d, e, x, z, a, b);
    FirstTwo(s, q, c, d, e, x, z, a, b);
    var xs := ThreeSteps(d, e, x, z);
    var s2, l := Next(Next(s, xs[0]), xs[1]), Unlinked(Unlinked(q, e), x);
    hide Inv, Represents, Without, Refs, Next, Unlinked;
    AnotherStatus(s2, l, d, z, RUNNABLE);
  }

  /** The failing run, from any such state: after the three changes the queue is a, b, z and its
      links say so; then e, still current on c, calls sys_ipc_recv, and the pointer behind a leads
      to x, which is not RUNNABLE. */
  lemma ReceiveBreaksQueue(s: State, q: Links, c: nat, d: nat, e: nat, x: nat, z: nat, a: seq<nat>, b: seq<nat>)
    requires Family(s, q, c, d, e, x, z, a, b)
    ensures |q.next| == |q.prev|
    ensures
      var xs := ThreeSteps(d, e, x, z);
      Enabled(s, xs[0]) && Refs(Next(s, xs[0])) && Enabled(Next(s, xs[0]), xs[1]) &&
      var s2 := Next(Next(s, xs[0]), xs[1]);
      Refs(s2) && Enabled(s2, xs[2]) &&
      var t, l := Next(s2, xs[2]), Appended(Unlinked(Unlinked(q, e), x), z);
      && Inv(t) && t.phase[c] == User && t.cur[c] == Of(e) && t.queue == a + b + [z] && Represents(l, t.queue)
      && t.envs[x].status == NOT_RUNNABLE && QueueOk(Blocked(t, c)) && e < |l.next| == |l.prev|
      && var r := Unlinked(l, e);
         && (if a == [] then r.first == Elem(x) else a[|a| - 1] < |r.next| && r.next[a[|a| - 1]] == Elem(x))
         && !Represents(r, Blocked(t, c).queue)
  {
    InFamily(s, q, c, d, e, x, z, a, b);
    FamilySteps(s, q, c, d, e, x, z, a, b);
    SecondRemoveBreaks(q, a, e, x, b, z);
    var xs := ThreeSteps(d, e, x, z);
    var t, l := Next(Next(Next(s, xs[0]), xs[1]), xs[2]), Appended(Unlinked(Unlinked(q, e), x), z);
    hide Inv, Represents, Without, Next, Enabled, Refs, Unlinked, Appended;
    ReceiveKeepsQueueIff(t, l, c, e);
    WithoutAbsent(t.queue, e);
  }

  // ---------------------------------------------------------------------------
  // The assertion of env_run

  /** A pick is pending on c. */
  ghost predicate Pending(s: State, x: Step, c: nat, e: nat) {
    && Inv(s) && Refs(s) && Enabled(s, x) && x.c != c
    && c < NCPU(s) && s.phase[c] == Picked(e) && e < NENV && s.envs[e].status == RUNNABLE
  }

  lemma ScheduleElsewhere(s: State, x: Step, c: nat, e: nat)
    requires Pending(s, x, c, e) && (x.Schedule? || x.Recv? || x.Retry?)
    ensures var r := Next(s, x); r.phase[c] == Picked(e) && r.envs[e].status == RUNNABLE
  {
    CpuAt(s, c); CpuAt(s, x.c);
    hide Inv, FirstEligible, Without;
  }

  lemma StepElsewhere(s: State, x: Step, c: nat, e: nat)
    requires Pending(s, x, c, e) && !x.Schedule? && !x.Recv? && !x.Retry?
    ensures
      var r := Next(s, x);
      r.phase[c] == Picked(e) && (r.envs[e].status == RUNNABLE <==> !(x.Status? && x.e == e && x.st == NOT_RUNNABLE))
  {
    CpuAt(s, c); CpuAt(s, x.c); EnvAt(s, e);
    assert x.Fork? ==> s.freeList[0] in s.freeList;
    assert x.Fork? ==> e !in s.freeList;
    hide Inv, LockedSchedule, Receive, Pick, Without;
  }

  /** Between the pick and env_run, no step of another CPU but one makes the env other than
      RUNNABLE: a status change to NOT_RUNNABLE by its parent. */
  lemma RunAssertIff(s: State, x: Step, c: nat, e: nat)
    requires Pending(s, x, c, e)
    ensures
      var r := Next(s, x);
      && Refs(r) && r.phase[c] == Picked(e) && (Enabled(r, Step.Run(c)) <==> r.envs[e].status == RUNNABLE)
      && (r.envs[e].status == RUNNABLE <==> !(x.Status? && x.e == e && x.st == NOT_RUNNABLE))
  {
    StepInv(s, x);
    InvRefs(Next(s, x));
    if x.Schedule? || x.Recv? || x.Retry? { ScheduleElsewhere(s, x, c, e); } else { StepElsewhere(s, x, c, e); }
    hide Inv, Next;
  }

  /** And that one is possible, so that the assertion of env_run can fail. */
  lemma StoppedBeforeRun(s: State, c: nat, d: nat, e: nat)
    requires Inv(s) && Refs(s) && c < NCPU(s) && s.phase[c] == Picked(e)
    requires Enabled(s, Step.Status(d, e, NOT_RUNNABLE)) && d != c
    ensures
      var r := Next(s, Step.Status(d, e, NOT_RUNNABLE));
      Inv(r) && r.phase[c] == Picked(e) && r.envs[e].running && r.envs[e].cpu == c
      && r.envs[e].status == NOT_RUNNABLE && !Enabled(r, Step.Run(c))
  {
    StepInv(s, Step.Status(d, e, NOT_RUNNABLE));
    CpuAt(s, c);
  }
}
