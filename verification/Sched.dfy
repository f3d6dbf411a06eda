/** The SMP scheduler and the env life cycle (kern/sched.c, kern/env.c and the env calls of
    kern/syscall_all.c) as a machine whose steps are the env_sched_lock sections and the
    unlocked reads between them, on any number of CPUs. */
module Sched {
  import opened Queue

  const NENV: nat := 1024

  /** env ids are `(++i) << 11 | slot` in 32 bits. */
  const IDSTEP: nat := 2048
  const MAX_MADE: nat := 0x20_0000

  datatype Status = FREE | RUNNABLE | NOT_RUNNABLE

  datatype Env = Env(status: Status, id: nat, parent: nat, running: bool, cpu: int, pinned: int,
                     killPending: bool, killDone: bool, recving: bool, pri: nat)

  /** A `struct Env *`, possibly NULL. */
  datatype Ref = Nobody | Of(e: nat)

  /** Where a CPU is.  User covers user mode and a system call before its first locked
      section. */
  datatype Phase =
    | User
    | SchedStart(giveUp: bool)      // in schedule, before the unlocked kill check
    | SchedLock(giveUp: bool)       // past the check, about to take env_sched_lock
    | Spin                         // found nothing, lock released
    | Picked(e: nat)               // chose e, lock released, env_run not yet reached
    | FreePages(e: nat)            // in env_free, before its locked section
    | FreeDone(e: nat)             // past it; curenv may still point at e
    | WaitRemote(e: nat, id: nat)  // in env_wait_remote_destroy
    | Sending(e: nat)              // between the two locked sections of sys_ipc_try_send

  /** queue is env_sched_list, freeList is env_free_list, made is mkenvid's counter and
      freed logs the ids env_free was completed for. */
  datatype State = State(envs: seq<Env>, queue: seq<nat>, freeList: seq<nat>, made: nat, freed: seq<nat>,
                         cur: seq<Ref>, count: seq<int>, phase: seq<Phase>)

  function NCPU(s: State): (r: nat) { |s.phase| }

  predicate Shape(s: State) {
    |s.envs| == NENV && |s.cur| == |s.count| == |s.phase|
  }

  // ---------------------------------------------------------------------------
  // The pieces steps are made of

  function WithEnv(s: State, e: nat, v: Env): (r: State)
    requires e < |s.envs|
    ensures Shape(s) ==> Shape(r) && NCPU(r) == NCPU(s)
  {
    s.(envs := s.envs[e := v])
  }

  function Goto(s: State, c: nat, ph: Phase): (r: State)
    requires c < |s.phase|
    ensures Shape(s) ==> Shape(r) && NCPU(r) == NCPU(s)
  {
    s.(phase := s.phase[c := ph])
  }

  /** TAILQ_REMOVE by value. */
  function Without(q: seq<nat>, e: nat): (r: seq<nat>)
    ensures forall x :: x in r <==> x in q && x != e
    ensures Distinct(q) ==> Distinct(r)
    ensures Slots(q) ==> Slots(r)
  {
    if q == [] then []
    else
      assert q == [q[0]] + q[1..];
      var t := Without(q[1..], e);
      if q[0] == e then t
      else
        assert q[0] in q[1..] || q[0] !in t;
        [q[0]] + t
  }

  lemma {:induction false} WithoutAt(q: seq<nat>, e: nat, k: nat)
    requires Distinct(q) && k < |q| && q[k] == e
    ensures Without(q, e) == Drop(q, k)
  {
    if k == 0 {
      WithoutAbsent(q[1..], e);
    } else {
      WithoutAt(q[1..], e, k - 1);
      assert Drop(q, k) == [q[0]] + Drop(q[1..], k - 1);
    }
  }

  lemma {:induction false} WithoutAbsent(q: seq<nat>, e: nat)
    requires e !in q
    ensures Without(q, e) == q
  {
    if q != [] {
      WithoutAbsent(q[1..], e);
      assert q == [q[0]] + q[1..];
    }
  }

  /** A list of env slots. */
  predicate Slots(q: seq<nat>) {
    forall i :: 0 <= i < |q| ==> q[i] < NENV
  }

  /** The test of the search loop in schedule. */
  predicate Eligible(s: State, c: nat, e: nat)
    requires e < |s.envs|
  {
    var v := s.envs[e];
    (v.pinned < 0 || v.pinned == c) && !v.killPending && (!v.running || v.cpu == c)
  }

  /** First env of the queue that CPU c may run, searching from position k. */
  function FirstEligible(s: State, c: nat, k: nat): (x: Ref)
    requires Shape(s) && k <= |s.queue| && Slots(s.queue)
    ensures x.Of? ==> x.e < NENV && x.e in s.queue && Eligible(s, c, x.e)
    ensures x.Nobody? ==> forall i :: k <= i < |s.queue| ==> !Eligible(s, c, s.queue[i])
    decreases |s.queue| - k
  {
    if k == |s.queue| then Nobody
    else if Eligible(s, c, s.queue[k]) then Of(s.queue[k])
    else FirstEligible(s, c, k + 1)
  }

  /** The search loop once: claim the first eligible env, or release the lock and spin. */
  function Pick(s: State, c: nat): (r: State)
    requires Shape(s) && c < NCPU(s) && Slots(s.queue)
    ensures Shape(s) ==> Shape(r) && NCPU(r) == NCPU(s)
  {
    match FirstEligible(s, c, 0)
    case Nobody => Goto(s, c, Spin)
    case Of(e) =>
      var v := s.envs[e];
      Goto(WithEnv(s, e, v.(running := true, cpu := c)), c, Picked(e)).(count := s.count[c := v.pri - 1])
  }

  /** The outgoing env loses its CPU and, if still runnable, goes to the tail. */
  function Deschedule(s: State, e: nat): (r: State)
    requires e < |s.envs|
    ensures Shape(s) ==> Shape(r) && NCPU(r) == NCPU(s)
  {
    var v := s.envs[e];
    var q := if v.status == RUNNABLE then Without(s.queue, e) + [e] else s.queue;
    WithEnv(s, e, v.(running := false, cpu := -1)).(queue := q)
  }

  /** The locked section of schedule. */
  function LockedSchedule(s: State, c: nat, giveUp: bool): (r: State)
    requires Shape(s) && c < NCPU(s) && Slots(s.queue) && (s.cur[c].Of? ==> s.cur[c].e < NENV)
    ensures Shape(s) ==> Shape(r) && NCPU(r) == NCPU(s)
  {
    var e := s.cur[c];
    if giveUp || s.count[c] == 0 || e.Nobody? || s.envs[e.e].status != RUNNABLE then
      Pick(if e.Of? then Deschedule(s, e.e) else s, c)
    else
      Goto(s, c, Picked(e.e)).(count := s.count[c := s.count[c] - 1])
  }

  /** envid2env with checkperm set: the caller itself or its child, and not free. */
  predicate MayAct(s: State, c: nat, e: nat)
    requires Shape(s) && c < NCPU(s)
  {
    && e < NENV && s.cur[c].Of? && s.cur[c].e < NENV
    && s.envs[e].status != FREE
    && (e == s.cur[c].e || s.envs[e].parent == s.envs[s.cur[c].e].id)
  }

  /** env_alloc and the rest of sys_exofork. */
  function Exofork(s: State, c: nat): (r: State)
    requires Shape(s) && c < NCPU(s) && s.freeList != [] && s.freeList[0] < NENV && s.cur[c].Of? && s.cur[c].e < NENV
    ensures Shape(s) ==> Shape(r) && NCPU(r) == NCPU(s)
  {
    var e := s.freeList[0];
    var p := s.envs[s.cur[c].e];
    WithEnv(s, e, s.envs[e].(status := NOT_RUNNABLE, id := (s.made + 1) * IDSTEP + e, parent := p.id,
                             running := false, cpu := -1, pinned := -1, killPending := false, pri := p.pri))
    .(freeList := s.freeList[1..], made := s.made + 1)
  }

  /** The locked section of sys_set_env_status, and the schedule(1) after it. */
  function SetStatus(s: State, c: nat, e: nat, st: Status): (r: State)
    requires Shape(s) && c < NCPU(s) && e < NENV
    ensures Shape(s) ==> Shape(r) && NCPU(r) == NCPU(s)
  {
    var v := s.envs[e];
    var q := if st == RUNNABLE && v.status != RUNNABLE then s.queue + [e]
             else if st == NOT_RUNNABLE && v.status != NOT_RUNNABLE then Without(s.queue, e)
             else s.queue;
    Goto(WithEnv(s, e, v.(status := st)).(queue := q), c, if s.cur[c] == Of(e) then SchedStart(true) else User)
  }

  /** The marking section of env_destroy. */
  function MarkDestroy(s: State, c: nat, e: nat): (r: State)
    requires Shape(s) && c < NCPU(s) && e < NENV
    ensures Shape(s) ==> Shape(r) && NCPU(r) == NCPU(s)
  {
    var v := s.envs[e];
    if v.status == FREE then s
    else if v.running && v.cpu != c then
      Goto(WithEnv(s, e, v.(killPending := true, killDone := false)), c, WaitRemote(e, v.id))
    else
      Goto(WithEnv(s, e, v.(killPending := true)), c, FreePages(e))
  }

  /** The locked section at the end of env_free. */
  function FreeSection(s: State, c: nat, e: nat): (r: State)
    requires Shape(s) && c < NCPU(s) && e < NENV
    ensures Shape(s) ==> Shape(r) && NCPU(r) == NCPU(s)
  {
    var v := s.envs[e];
    var q := if v.status == RUNNABLE then Without(s.queue, e) else s.queue;
    var w := v.(status := FREE, running := false, cpu := -1, pinned := -1, killPending := false, killDone := true);
    Goto(WithEnv(s, e, w), c, FreeDone(e)).(queue := q, freeList := [e] + s.freeList, freed := s.freed + [v.id])
  }

  /** sys_ipc_recv with the kill check and the locked section of the schedule(1) it ends in. */
  function Receive(s: State, c: nat): (r: State)
    requires Shape(s) && c < NCPU(s) && Slots(s.queue) && s.cur[c].Of? && s.cur[c].e < NENV
    ensures Shape(s) ==> Shape(r) && NCPU(r) == NCPU(s)
  {
    var e := s.cur[c].e;
    var v := s.envs[e];
    var w := v.(recving := true, status := NOT_RUNNABLE, running := false, cpu := -1);
    var a := WithEnv(s, e, w).(queue := Without(s.queue, e));
    if v.killPending then Goto(a, c, FreePages(e)) else LockedSchedule(a, c, true)
  }

  // ---------------------------------------------------------------------------
  // Steps

  datatype Step =
    | Fork(c: nat)
    | Status(c: nat, e: nat, st: Status)
    | Trap(c: nat, giveUp: bool)
    | CheckKill(c: nat)
    | Schedule(c: nat)
    | Retry(c: nat)
    | Run(c: nat)
    | Destroy(c: nat, e: nat)
    | Free(c: nat)
    | FreeReturn(c: nat)
    | WaitOver(c: nat)
    | Recv(c: nat)
    | SendClaim(c: nat, e: nat)
    | SendFinish(c: nat)
    | SendAbort(c: nat)

  /** The condition env_wait_remote_destroy spins on. */
  predicate StillWaiting(s: State, e: nat, id: nat)
    requires Shape(s)
  {
    e < NENV && s.envs[e].id == id && !s.envs[e].killDone
  }

  /** Three guards are hypotheses on runs rather than tests in the code: ids have not wrapped
      (Fork), a receiver calling sys_ipc_recv is on the run queue (Recv), and a claimed
      receiver is still blocked when its sender comes back (SendFinish).  Status also takes
      envid2env and the locked section as one step.  What happens without the last three is
      in SchedRaces. */
  predicate Enabled(s: State, x: Step)
    requires Shape(s)
  {
    && x.c < NCPU(s)
    && match x
       case Fork(c) => s.phase[c] == User && s.cur[c].Of? && s.freeList != [] && s.made + 1 < MAX_MADE
       case Status(c, e, st) => s.phase[c] == User && MayAct(s, c, e) && st != FREE
       case Trap(c, _) => s.phase[c] == User
       case CheckKill(c) => s.phase[c].SchedStart?
       case Schedule(c) => s.phase[c].SchedLock?
       case Retry(c) => s.phase[c] == Spin
       case Run(c) => s.phase[c].Picked? && s.phase[c].e < NENV && s.envs[s.phase[c].e].status == RUNNABLE
       case Destroy(c, e) => s.phase[c] == User && MayAct(s, c, e)
       case Free(c) => s.phase[c].FreePages?
       case FreeReturn(c) => s.phase[c].FreeDone?
       case WaitOver(c) => s.phase[c].WaitRemote? && !StillWaiting(s, s.phase[c].e, s.phase[c].id)
       case Recv(c) => s.phase[c] == User && s.cur[c].Of? && s.cur[c].e < NENV && s.envs[s.cur[c].e].status == RUNNABLE
       case SendClaim(c, e) =>
         s.phase[c] == User && s.cur[c].Of? && e < NENV && s.envs[e].status != FREE && s.envs[e].recving
       case SendFinish(c) => s.phase[c].Sending? && s.phase[c].e < NENV && s.envs[s.phase[c].e].status == NOT_RUNNABLE
       case SendAbort(c) => s.phase[c].Sending? && s.phase[c].e < NENV
  }

  /** Every reference in the state is an env slot. */
  predicate Refs(s: State) {
    && Shape(s)
    && Slots(s.queue)
    && Slots(s.freeList)
    && (forall c :: 0 <= c < NCPU(s) ==> (s.cur[c].Of? ==> s.cur[c].e < NENV))
    && (forall c :: 0 <= c < NCPU(s) ==> (s.phase[c].FreePages? ==> s.phase[c].e < NENV))
  }

  function Next(s: State, x: Step): (r: State)
    requires Refs(s) && Enabled(s, x)
    ensures Shape(r) && NCPU(r) == NCPU(s)
  {
    match x
    case Fork(c) => Exofork(s, c)
    case Status(c, e, st) => SetStatus(s, c, e, st)
    case Trap(c, giveUp) => Goto(s, c, SchedStart(giveUp))
    case CheckKill(c) =>
      if s.cur[c].Of? && s.envs[s.cur[c].e].killPending then Goto(s, c, FreePages(s.cur[c].e))
      else Goto(s, c, SchedLock(s.phase[c].giveUp))
    case Schedule(c) => LockedSchedule(s, c, s.phase[c].giveUp)
    case Retry(c) => Pick(s, c)
    case Run(c) => Goto(s, c, User).(cur := s.cur[c := Of(s.phase[c].e)])
    case Destroy(c, e) => MarkDestroy(s, c, e)
    case Free(c) => FreeSection(s, c, s.phase[c].e)
    case FreeReturn(c) =>
      if s.cur[c] == Of(s.phase[c].e) then Goto(s, c, SchedStart(true)).(cur := s.cur[c := Nobody])
      else Goto(s, c, User)
    case WaitOver(c) => Goto(s, c, User)
    case Recv(c) => Receive(s, c)
    case SendClaim(c, e) => Goto(WithEnv(s, e, s.envs[e].(recving := false)), c, Sending(e))
    case SendFinish(c) =>
      var e := s.phase[c].e;
      Goto(WithEnv(s, e, s.envs[e].(status := RUNNABLE)).(queue := s.queue + [e]), c, User)
    case SendAbort(c) =>
      var e := s.phase[c].e;
      Goto(WithEnv(s, e, s.envs[e].(recving := true)), c, User)
  }

  // ---------------------------------------------------------------------------
  // The invariant

  /** The env CPU c owns: picked, or current and neither given up nor being freed. */
  function Owner(s: State, c: nat): (r: Ref)
    requires Shape(s) && c < NCPU(s)
  {
    match s.phase[c]
    case Picked(e) => Of(e)
    case Spin => Nobody
    case FreePages(e) => if s.cur[c] == Of(e) then Nobody else s.cur[c]
    case FreeDone(e) => if s.cur[c] == Of(e) then Nobody else s.cur[c]
    case _ => s.cur[c]
  }

  /** CPU c is tearing down its own current env. */
  predicate FreeingSelf(s: State, c: nat, e: nat)
    requires Shape(s) && c < NCPU(s)
  {
    s.phase[c] == FreePages(e) && s.cur[c] == Of(e)
  }

  /** env_sched_list holds exactly the RUNNABLE envs, each once. */
  ghost predicate QueueOk(s: State)
    requires Shape(s)
  {
    Distinct(s.queue) && forall e: nat :: e in s.queue <==> e < NENV && s.envs[e].status == RUNNABLE
  }

  /** env_free_list holds exactly the free ones, each once. */
  ghost predicate FreeListOk(s: State)
    requires Shape(s)
  {
    Distinct(s.freeList) && forall e: nat :: e in s.freeList <==> e < NENV && s.envs[e].status == FREE
  }

  ghost predicate ListsOk(s: State)
    requires Shape(s)
  {
    QueueOk(s) && FreeListOk(s)
  }

  /** Someone is dealing with the kill mark on e: freeing it, or waiting for that. */
  ghost predicate Handles(s: State, d: nat, e: nat)
    requires Shape(s) && e < NENV
  {
    d < NCPU(s) && (s.phase[d] == FreePages(e) || s.phase[d] == WaitRemote(e, s.envs[e].id))
  }

  ghost predicate EnvOk(s: State, e: nat)
    requires Shape(s) && e < NENV
  {
    var v := s.envs[e];
    && (v.running ==>
          && 0 <= v.cpu < NCPU(s) && v.status != FREE
          && (Owner(s, v.cpu) == Of(e) || FreeingSelf(s, v.cpu, e)))
    && (v.id == 0 || (v.id % IDSTEP == e && 1 <= v.id / IDSTEP <= s.made))
    && (v.status != FREE ==> v.id != 0 && v.id !in s.freed)
    && (v.status == FREE ==> v.id == 0 || (v.id in s.freed && v.killDone))
    && (v.status != FREE && v.killPending ==> exists d: nat :: Handles(s, d, e))
  }

  ghost predicate CpuOk(s: State, c: nat)
    requires Shape(s) && c < NCPU(s)
  {
    && (s.cur[c].Of? ==> s.cur[c].e < NENV)
    && (Owner(s, c).Of? ==>
          var e := Owner(s, c).e;
          e < NENV && s.envs[e].running && s.envs[e].cpu == c && (s.envs[e].pinned >= 0 ==> s.envs[e].pinned == c))
    && match s.phase[c]
       case FreePages(e) =>
         && e < NENV && s.envs[e].status != FREE && s.envs[e].killPending
         && (s.envs[e].running ==> s.envs[e].cpu == c && s.cur[c] == Of(e))
         && (if s.cur[c] == Of(e)
             then s.envs[e].running || exists d: nat :: d < NCPU(s) && s.phase[d] == WaitRemote(e, s.envs[e].id)
             else s.cur[c].Of? && s.envs[s.cur[c].e].id == s.envs[e].parent)
       case WaitRemote(e, id) =>
         && e < NENV && id != 0
         && (id in s.freed
             || (&& s.envs[e].id == id && s.envs[e].status != FREE && s.envs[e].killPending && !s.envs[e].killDone
                 && s.cur[c].Of? && s.envs[s.cur[c].e].id == s.envs[e].parent))
       case FreeDone(e) => e < NENV
       case Sending(e) => e < NENV && s.cur[c].Of?
       case _ => true
  }

  /** Two CPUs never free the same env. */
  ghost predicate FreeApart(s: State, c: nat, d: nat)
    requires Shape(s) && c < NCPU(s) && d < NCPU(s)
  {
    c != d && s.phase[c].FreePages? ==> s.phase[d] != s.phase[c]
  }

  ghost predicate IdsOk(s: State) {
    Distinct(s.freed) && forall x :: x in s.freed ==> 1 <= x / IDSTEP <= s.made
  }

  ghost predicate Inv(s: State) {
    && Shape(s) && ListsOk(s) && IdsOk(s)
    && (forall e: nat :: e < NENV ==> EnvOk(s, e))
    && (forall c: nat :: c < NCPU(s) ==> CpuOk(s, c))
    && (forall c: nat, d: nat :: c < NCPU(s) && d < NCPU(s) ==> FreeApart(s, c, d))
  }

  /** After env_init and the env_create calls of boot: nobody runs anything yet. */
  ghost predicate Init(s: State)
    ensures Init(s) ==> Inv(s)
  {
    && Shape(s) && ListsOk(s) && s.freed == []
    && (forall c: nat :: c < NCPU(s) ==> s.cur[c] == Nobody && s.phase[c] == User)
    && (forall e: nat :: e < NENV ==>
          var v := s.envs[e];
          !v.running && !v.killPending && v.status != NOT_RUNNABLE
          && (if v.status == FREE then v.id == 0 else v.id % IDSTEP == e && 1 <= v.id / IDSTEP <= s.made))
  }

  lemma InvRefs(s: State)
    requires Inv(s)
    ensures Refs(s)
  {
    forall i | 0 <= i < |s.queue| ensures s.queue[i] < NENV { assert s.queue[i] in s.queue; }
    forall i | 0 <= i < |s.freeList| ensures s.freeList[i] < NENV { assert s.freeList[i] in s.freeList; }
    forall c: nat | c < NCPU(s) ensures s.cur[c].Of? ==> s.cur[c].e < NENV { assert CpuOk(s, c); }
    forall c: nat | c < NCPU(s) ensures s.phase[c].FreePages? ==> s.phase[c].e < NENV { assert CpuOk(s, c); }
  }
}
