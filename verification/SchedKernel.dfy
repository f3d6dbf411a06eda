/** The env_sched_lock sections of kern/sched.c, kern/env.c and kern/syscall_all.c as
    imperative code over the env table and the intrusive run queue, each proved to be the
    scheduler machine's step of the same name. */
module SchedKernel {
  import opened Queue
  import opened Sched
  import opened SchedInv
  import opened SchedRaces
  import opened SchedCalls

  lemma {:induction false} WithoutIsDrop(q: seq<nat>, e: nat)
    requires Distinct(q) && e in q
    ensures Without(q, e) == Drop(q, IndexOf(q, e))
  {
    WithoutAt(q, e, IndexOf(q, e));
  }

  datatype Found = BadEnv | Found(e: nat)

  /** An env struct before and after env_init. */
  const ZEROED: Env := Env(FREE, 0, 0, false, 0, 0, false, false, false, 0)
  const UNUSED: Env := Env(FREE, 0, 0, false, -1, -1, false, false, false, 0)

  /** The table after env_init: every slot free, in order, and idle CPUs. */
  function AllFree(ncpu: nat): (s: Sched.State) {
    Sched.State(seq(NENV, _ => UNUSED), [], seq(NENV, i => i), 0, [],
                seq(ncpu, _ => Nobody), seq(ncpu, _ => 0), seq(ncpu, _ => User))
  }

  lemma AllFreeInit(ncpu: nat)
    ensures Init(AllFree(ncpu)) && Refs(AllFree(ncpu))
  {
    var s := AllFree(ncpu);
    forall e: nat ensures e in s.freeList <==> e < NENV {
      if e < NENV { assert s.freeList[e] == e; }
    }
    assert forall e: nat :: e < NENV ==> s.envs[e] == UNUSED;
    assert FreeListOk(s) && QueueOk(s);
    InvRefs(s);
  }

  class EnvTable {
    var envs: seq<Env>
    /** env_sched_list and env_free_list, threaded through the env structs. */
    const list: TailQueue
    const frees: List
    var made: nat
    ghost var freed: seq<nat>
    var cur: seq<Ref>
    var count: seq<int>
    var phase: seq<Phase>

    ghost function State(): (s: Sched.State)
      reads this, list, frees
    {
      Sched.State(envs, list.items, frees.items, made, freed, cur, count, phase)
    }

    /** The two lists are apart and each is valid. */
    ghost predicate Parts()
      reads this, list, list.next, list.prev, frees, frees.next, frees.prev
    {
      && {list.next as object, list.prev} !! {frees.next as object, frees.prev}
      && list.Valid() && list.next.Length == NENV && frees.Valid() && frees.next.Length == NENV
    }

    ghost predicate Valid()
      reads this, list, list.next, list.prev, frees, frees.next, frees.prev
    {
      Parts() && Inv(State()) && Refs(State())
    }

    /** env_init. */
    constructor (ncpu: nat)
      ensures Valid() && State() == AllFree(ncpu)
      ensures fresh(list) && fresh(list.next) && fresh(list.prev)
      ensures fresh(frees) && fresh(frees.next) && fresh(frees.prev)
    {
      envs := seq(NENV, _ => ZEROED);
      list := new TailQueue(NENV);
      frees := new List(NENV);
      made, freed := 0, [];
      cur, count, phase := seq(ncpu, _ => Nobody), seq(ncpu, _ => 0), seq(ncpu, _ => User);
      new;
      InitLoop();
      AllFreeInit(ncpu);
    }

    /** Its loop: every env onto the free list, from the last to the first. */
    method InitLoop()
      requires frees.Valid() && frees.next.Length == NENV && frees.items == [] && envs == seq(NENV, _ => ZEROED)
      modifies this`envs, frees, frees.next, frees.prev
      ensures frees.Valid() && frees.next == old(frees.next) && frees.prev == old(frees.prev)
      ensures frees.items == seq(NENV, i => i) && envs == seq(NENV, _ => UNUSED)
    {
      hide Linked;
      for i := NENV downto 0
        invariant frees.Valid() && frees.next == old(frees.next) && frees.prev == old(frees.prev)
        invariant frees.items == seq(NENV - i, k => i + k)
        invariant |envs| == NENV && (forall k :: 0 <= k < i ==> envs[k] == ZEROED)
        invariant forall k :: i <= k < NENV ==> envs[k] == UNUSED
      {
        envs := envs[i := envs[i].(status := FREE, cpu := -1, running := false, pinned := -1,
                                   killPending := false, killDone := false)];
        frees.InsertHead(i);
      }
    }

    /** env_create_named, at boot: a RUNNABLE env at the head of the queue, pinned to CPU 0 if it
        is the file server. */
    method EnvCreate(pri: nat, fileServer: bool) returns (e: nat)
      requires Parts() && Init(State()) && frees.items != [] && made + 1 < MAX_MADE
      modifies this, list, list.next, list.prev, frees, frees.next, frees.prev
      ensures Valid() && Init(State())
      ensures e == old(frees.items)[0] && list.items == [e] + old(list.items) && frees.items == old(frees.items)[1..]
      ensures envs[e].status == RUNNABLE && envs[e].pri == pri && envs[e].pinned == if fileServer then 0 else -1
    {
      ghost var s := State();
      assert LinkedAt(frees.next[..], frees.prev[..], frees.items, 0);
      e := frees.first.i;
      assert e in frees.items && e !in list.items;
      made := made + 1;
      envs := envs[e := envs[e].(status := RUNNABLE, id := made * IDSTEP + e, parent := 0, running := false, cpu := -1,
                                 pinned := if fileServer then 0 else -1, killPending := false, pri := pri)];
      DropFirst(frees.items);
      frees.Remove(e);
      list.InsertHead(e);
      CreatedInit(s, State(), e);
      InvRefs(State());
    }

    /** envid2env. */
    method Envid2Env(c: nat, envid: nat, checkperm: bool) returns (r: Found)
      requires Valid() && c < |phase| && cur[c].Of?
      ensures envid == 0 ==> r == Found(cur[c].e)
      ensures envid != 0 && r.Found? ==> r.e < NENV && envs[r.e].id == envid && envs[r.e].status != FREE
      ensures envid != 0 && checkperm && r.Found? ==> MayAct(State(), c, r.e)
      ensures r.BadEnv? ==> forall e: nat :: e < NENV && envs[e].id == envid && envs[e].status != FREE ==>
                checkperm && !MayAct(State(), c, e)
    {
      if envid == 0 {
        return Found(cur[c].e);
      }
      var e := envid % NENV;
      forall x: nat | x < NENV && envs[x].id == envid && envs[x].status != FREE ensures x == e {
        assert EnvOk(State(), x);
        ShiftedSlot(envid, x);
      }
      if envs[e].status == FREE || envs[e].id != envid {
        return BadEnv;
      }
      if checkperm && e != cur[c].e && envs[e].parent != envs[cur[c].e].id {
        return BadEnv;
      }
      return Found(e);
    }

    /** The locked section of schedule: move the outgoing env to the tail, then search. */
    method Schedule(c: nat)
      requires Valid() && Enabled(State(), Sched.Schedule(c))
      modifies this, list, list.next, list.prev
      ensures Valid() && State() == Next(old(State()), Sched.Schedule(c))
    {
      StepInv(State(), Sched.Schedule(c));
      InvRefs(Next(State(), Sched.Schedule(c)));
      hide Inv, Represents;
      LockedSection(c, phase[c].giveUp);
    }

    method LockedSection(c: nat, giveUp: bool)
      requires Parts() && Refs(State()) && QueueOk(State()) && c < |phase|
      modifies this, list, list.next, list.prev
      ensures Parts() && State() == LockedSchedule(old(State()), c, giveUp)
    {
      var e := cur[c];
      if giveUp || count[c] == 0 || e.Nobody? || envs[e.e].status != RUNNABLE {
        if e.Of? {
          GiveUp(e.e);
        }
        Search(c);
      } else {
        phase := phase[c := Picked(e.e)];
        count := count[c := count[c] - 1];
      }
    }

    /** The outgoing env. */
    method GiveUp(e: nat)
      requires Parts() && Refs(State()) && QueueOk(State()) && e < NENV
      modifies this`envs, list, list.next, list.prev
      ensures Parts() && State() == Deschedule(old(State()), e) && Slots(list.items)
    {
      assert envs[e].status == RUNNABLE ==> e in list.items && Distinct(list.items);
      hide Represents, Linked, Bounded, QueueOk, Without;
      envs := envs[e := envs[e].(running := false, cpu := -1)];
      if envs[e].status == RUNNABLE {
        ToTail(e);
      }
    }

    method ToTail(e: nat)
      requires Parts() && e in list.items && Distinct(list.items)
      modifies list, list.next, list.prev
      ensures Parts() && list.items == Without(old(list.items), e) + [e]
    {
      hide Represents, Linked, Bounded;
      WithoutIsDrop(list.items, e);
      list.Remove(e);
      list.InsertTail(e);
    }

    /** The search loop over env_sched_list, following the links. */
    method Search(c: nat)
      requires Parts() && Shape(State()) && Slots(list.items) && c < |phase|
      modifies this
      ensures Parts() && State() == Pick(old(State()), c)
    {
      var at := list.first;
      ghost var k := 0;
      while at.Elem?
        invariant 0 <= k <= |list.items| && at == LinkTo(list.items, k)
        invariant State() == old(State())
        invariant FirstEligible(State(), c, 0) == FirstEligible(State(), c, k)
        decreases |list.items| - k
      {
        var v := envs[at.i];
        if (v.pinned < 0 || v.pinned == c) && !v.killPending && (!v.running || v.cpu == c) {
          envs := envs[at.i := v.(running := true, cpu := c)];
          count := count[c := v.pri - 1];
          phase := phase[c := Picked(at.i)];
          return;
        }
        assert LinkedAt(list.next[..], list.prev[..], list.items, k);
        at := list.next[at.i];
        k := k + 1;
      }
      phase := phase[c := Spin];
    }

    /** The change sys_set_env_status makes to the queue. */
    method StatusLinks(e: nat, was: Status, st: Status)
      requires Parts() && e < NENV && (was == RUNNABLE <==> e in list.items)
      modifies list, list.next, list.prev
      ensures list.next == old(list.next) && list.prev == old(list.prev)
      ensures list.Whole() && list.Store() == SetLinks(old(list.Store()), was, e, st)
      ensures was != FREE || st == RUNNABLE ==>
                && list.Valid()
                && list.items == if st == RUNNABLE && was != RUNNABLE then old(list.items) + [e]
                                 else if st == NOT_RUNNABLE && was != NOT_RUNNABLE then Without(old(list.items), e)
                                 else old(list.items)
    {
      assert Distinct(list.items);
      hide Represents, Bounded;
      if st == RUNNABLE && was != RUNNABLE {
        list.InsertTail(e);
      } else if st == NOT_RUNNABLE && was != NOT_RUNNABLE {
        if was == RUNNABLE { WithoutIsDrop(list.items, e); }
        list.RemoveAny(e);
      }
    }

    /** sys_set_env_status after envid2env found e, which may have been freed, or freed and used
        again, since.  On an env that is not free it keeps everything; on a free one it still makes
        exactly these changes to the links. */
    method SetEnvStatus(c: nat, e: nat, st: Status)
      requires Valid() && c < |phase| && phase[c] == User && st != FREE && e < NENV
      modifies this, list, list.next, list.prev
      ensures old(envs[e].status) != FREE ==> Valid() && State() == SetStatus(old(State()), c, e, st)
      ensures State().(queue := SetStatus(old(State()), c, e, st).queue) == SetStatus(old(State()), c, e, st)
      ensures list.Whole() && list.Store() == SetLinks(old(list.Store()), old(envs[e].status), e, st)
    {
      hide Inv, Represents, Linked, Bounded, Refs, Without, SetLinks;
      StatusFacts(State(), c, e, st);
      StatusLinks(e, envs[e].status, st);
      envs := envs[e := envs[e].(status := st)];
      phase := phase[c := if cur[c] == Of(e) then SchedStart(true) else User];
    }

    /** The marking section of env_destroy. */
    method MarkDestroy(c: nat, e: nat)
      requires Valid() && Enabled(State(), Destroy(c, e))
      modifies this
      ensures Valid() && State() == Next(old(State()), Destroy(c, e))
    {
      StepInv(State(), Destroy(c, e));
      InvRefs(Next(State(), Destroy(c, e)));
      hide Inv, Represents, Linked, Refs;
      if envs[e].running && envs[e].cpu != c {
        phase := phase[c := WaitRemote(e, envs[e].id)];
        envs := envs[e := envs[e].(killPending := true, killDone := false)];
      } else {
        envs := envs[e := envs[e].(killPending := true)];
        phase := phase[c := FreePages(e)];
      }
    }

    /** The locked section of env_free. */
    method FreeEnv(c: nat)
      requires Valid() && Enabled(State(), Free(c))
      modifies this, list, list.next, list.prev, frees, frees.next, frees.prev
      ensures Valid() && State() == Next(old(State()), Free(c))
    {
      hide Inv, Represents, Linked, Bounded, Refs, Without;
      FreeFacts(State(), c);
      var e := phase[c].e;
      FreeLists(e);
      freed := freed + [envs[e].id];
      envs := envs[e := envs[e].(status := FREE, running := false, cpu := -1, pinned := -1,
                                 killPending := false, killDone := true)];
      phase := phase[c := FreeDone(e)];
    }

    /** What it does to the two lists. */
    method FreeLists(e: nat)
      requires Parts() && e < |envs| == NENV && e !in frees.items && Distinct(list.items)
      requires envs[e].status == RUNNABLE <==> e in list.items
      modifies list, list.next, list.prev, frees, frees.next, frees.prev
      ensures Parts() && frees.items == [e] + old(frees.items) && list.items == Without(old(list.items), e)
    {
      hide Represents, Linked, Bounded;
      if envs[e].status == RUNNABLE {
        WithoutIsDrop(list.items, e);
        list.Remove(e);
      } else {
        WithoutAbsent(list.items, e);
      }
      frees.InsertHead(e);
    }

    method FirstFree() returns (e: nat)
      requires frees.Valid() && frees.items != []
      ensures e == frees.items[0] && Drop(frees.items, IndexOf(frees.items, e)) == frees.items[1..]
    {
      assert LinkedAt(frees.next[..], frees.prev[..], frees.items, 0);
      DropFirst(frees.items);
      e := frees.first.i;
    }

    /** env_alloc and sys_exofork. */
    method Exofork(c: nat) returns (id: nat)
      requires Valid() && Enabled(State(), Fork(c))
      modifies this, frees, frees.next, frees.prev
      ensures Valid() && State() == Next(old(State()), Fork(c))
      ensures id % IDSTEP == old(frees.items)[0] && id / IDSTEP == made && id !in freed
      ensures forall e: nat :: e < NENV && e != old(frees.items)[0] ==> envs[e].id != id
      ensures
        var e := old(frees.items)[0];
        && e < NENV && envs[e].id == id && MayAct(State(), c, e) && cur[c].Of? && cur[c].e < NENV
        && envs[e].parent == envs[cur[c].e].id && envs[e].pri == envs[cur[c].e].pri
    {
      hide Inv, Represents, Linked, Bounded, Refs;
      FreshId(State(), c);
      ChildOfCaller(State(), c);
      var e := FirstFree();
      made := made + 1;
      id := made * IDSTEP + e;
      envs := envs[e := envs[e].(status := NOT_RUNNABLE, id := id, parent := envs[cur[c].e].id, running := false,
                                 cpu := -1, pinned := -1, killPending := false, pri := envs[cur[c].e].pri)];
      frees.Remove(e);
    }

    /** The parent finds its child by the id it got. */
    method ExoforkThenFind(c: nat) returns (id: nat, r: Found)
      requires Valid() && Enabled(State(), Fork(c))
      modifies this, frees, frees.next, frees.prev
      ensures Valid() && r == Found(old(frees.items)[0])
    {
      id := Exofork(c);
      hide Inv, Represents, Linked, Bounded, Refs;
      r := Envid2Env(c, id, true);
    }

    /** The waking section of sys_ipc_try_send, whatever became of the receiver since the claim. */
    method Wake(c: nat)
      requires Valid() && c < |phase| && phase[c].Sending? && phase[c].e < NENV
      modifies this, list, list.next, list.prev
      ensures old(envs[phase[c].e].status) == NOT_RUNNABLE ==> Valid() && State() == Next(old(State()), SendFinish(c))
      ensures old(envs[phase[c].e].status) != RUNNABLE ==> Parts()
      ensures State() == Woken(old(State()), c, old(phase[c].e))
      ensures list.Whole() && list.Store() == Appended(old(list.Store()), old(phase[c].e))
    {
      var e := phase[c].e;
      if envs[e].status == NOT_RUNNABLE {
        StepInv(State(), SendFinish(c));
        InvRefs(Next(State(), SendFinish(c)));
      }
      assert envs[e].status == RUNNABLE <==> e in list.items;
      hide Inv, Represents, Linked, Refs;
      envs := envs[e := envs[e].(status := RUNNABLE)];
      list.Append(e);
      phase := phase[c := User];
    }

    /** The section of sys_ipc_recv: the caller leaves the queue, where it may no longer be. */
    method ReceiveSection(c: nat)
      requires Valid() && c < |phase| && phase[c] == User && cur[c].Of?
      modifies this`envs, list, list.next, list.prev
      ensures old(envs[cur[c].e].status) == RUNNABLE ==> Parts() && State() == Blocked(old(State()), c)
      ensures State().(queue := Blocked(old(State()), c).queue) == Blocked(old(State()), c)
      ensures list.Whole() && list.Store() == Unlinked(old(list.Store()), cur[c].e)
      ensures list.next == old(list.next) && list.prev == old(list.prev)
    {
      var e := cur[c].e;
      assert envs[e].status == RUNNABLE <==> e in list.items;
      assert Distinct(list.items);
      hide Inv, Represents, Linked, Bounded, Refs;
      if e in list.items { WithoutIsDrop(list.items, e); }
      list.RemoveAny(e);
      envs := envs[e := envs[e].(recving := true, status := NOT_RUNNABLE, running := false, cpu := -1)];
    }

    /** sys_ipc_recv by a RUNNABLE env, with the schedule(1) it ends in. */
    method Receive(c: nat)
      requires Valid() && Enabled(State(), Recv(c))
      modifies this, list, list.next, list.prev
      ensures Valid() && State() == Next(old(State()), Recv(c))
    {
      ghost var s := State();
      var e := cur[c].e;
      StepInv(s, Recv(c));
      InvRefs(Next(s, Recv(c)));
      BlockedInv(s, c);
      InvRefs(Goto(Blocked(s, c), c, Spin));
      hide Represents, Linked, Bounded;
      ReceiveSection(c);
      assert QueueOk(State());
      hide Inv;
      if envs[e].killPending {
        phase := phase[c := FreePages(e)];
      } else {
        LockedSection(c, true);
      }
    }
  }

  lemma StatusFacts(s: Sched.State, c: nat, e: nat, st: Status)
    requires Inv(s) && Refs(s) && c < NCPU(s) && s.phase[c] == User && st != FREE && e < NENV
    ensures Shape(s) && (s.envs[e].status == RUNNABLE <==> e in s.queue)
    ensures s.envs[e].status != FREE ==> Inv(SetStatus(s, c, e, st)) && Refs(SetStatus(s, c, e, st))
  {
    if s.envs[e].status != FREE {
      SetStatusInv(s, c, e, st);
      InvRefs(SetStatus(s, c, e, st));
    }
  }

  lemma FreeFacts(s: Sched.State, c: nat)
    requires Inv(s) && Refs(s) && Enabled(s, Free(c))
    ensures
      var e, r := s.phase[c].e, Next(s, Free(c));
      && Shape(s) && Inv(r) && Refs(r) && e < NENV && e !in s.freeList && Distinct(s.queue)
      && (s.envs[e].status == RUNNABLE <==> e in s.queue) && r.queue == Without(s.queue, e)
  {
    StepInv(s, Free(c));
    InvRefs(Next(s, Free(c)));
    assert CpuOk(s, c);
    if s.phase[c].e !in s.queue { WithoutAbsent(s.queue, s.phase[c].e); }
  }

  lemma FreshId(s: Sched.State, c: nat)
    requires Inv(s) && Refs(s) && Enabled(s, Fork(c))
    ensures
      var id, e := (s.made + 1) * IDSTEP + s.freeList[0], s.freeList[0];
      && Shape(s) && Inv(Next(s, Fork(c))) && Refs(Next(s, Fork(c)))
      && e < NENV && id % IDSTEP == e && id / IDSTEP == s.made + 1 && id !in s.freed
      && forall x: nat :: x < NENV && x != e ==> s.envs[x].id != id
  {
    StepInv(s, Fork(c));
    InvRefs(Next(s, Fork(c)));
    var id, e := (s.made + 1) * IDSTEP + s.freeList[0], s.freeList[0];
    assert e in s.freeList;
    forall x: nat | x < NENV && x != e ensures s.envs[x].id != id { assert EnvOk(s, x); }
  }

  /** ENVX undoes the shift of mkenvid. */
  lemma ShiftedSlot(id: nat, x: nat)
    requires id % IDSTEP == x && x < NENV
    ensures id % NENV == x
  {
    assert id == IDSTEP * (id / IDSTEP) + x;
    assert id == NENV * (2 * (id / IDSTEP)) + x;
  }

  /** One more env made at boot. */
  lemma CreatedInit(s: Sched.State, r: Sched.State, e: nat)
    requires Init(s) && Shape(r) && s.freeList != [] && e == s.freeList[0] && e < NENV
    requires r.queue == [e] + s.queue && r.freeList == s.freeList[1..] && r.made == s.made + 1
    requires r.freed == s.freed && r.cur == s.cur && r.phase == s.phase
    requires r.envs == s.envs[e := r.envs[e]] && r.envs[e].status == RUNNABLE && r.envs[e].id == r.made * IDSTEP + e
    requires !r.envs[e].running && !r.envs[e].killPending
    ensures Init(r)
  {
    assert s.freeList == [e] + r.freeList && e in s.freeList;
    assert r.envs[e].id % IDSTEP == e && r.envs[e].id / IDSTEP == r.made;
    assert e !in s.queue;
    forall a, b | 0 <= a < b < |r.queue| ensures r.queue[a] != r.queue[b] {
      assert r.queue[b] == s.queue[b - 1] && s.queue[b - 1] in s.queue;
      if a > 0 { assert r.queue[a] == s.queue[a - 1]; }
    }
    forall a, b | 0 <= a < b < |r.freeList| ensures r.freeList[a] != r.freeList[b] {
      assert r.freeList[a] == s.freeList[a + 1] && r.freeList[b] == s.freeList[b + 1];
    }
    assert forall k :: 0 <= k < |r.freeList| ==> r.freeList[k] == s.freeList[k + 1] && r.freeList[k] != e;
    forall x: nat ensures x in r.freeList <==> x < NENV && r.envs[x].status == FREE {
      assert x in s.freeList <==> x == e || x in r.freeList;
    }
    forall x: nat ensures x in r.queue <==> x < NENV && r.envs[x].status == RUNNABLE {
      assert x in r.queue <==> x == e || x in s.queue;
    }
    assert ListsOk(r);
  }
}
