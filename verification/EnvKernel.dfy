/** env_alloc and env_free of kern/env.c over the objects they change: the page allocator, the
    ASID bitmap and the list of free envs. */
module EnvKernel {
  import opened Queue
  import opened Pmap
  import opened PmapSteps
  import opened PmapRuns
  import opened PmapKernel
  import opened EnvLife
  import opened Asid

  /** Why env_alloc fails. */
  datatype Status = Ok | NoFreeEnv | NoMemory

  lemma SmallestUnused(used: set<nat>, a: nat)
    requires a <= NASID && (a < NASID ==> a !in used) && forall n: nat :: n < a ==> n in used
    ensures Unused(used, 0) == a
  {
  }

  lemma NewEnvIsNewDir(m: Memory, base: Frame)
    requires Inv(m) && m.free != []
    ensures m.free[0] < |m.mem| == |m.refs| && Apply(m, NewEnv(base)) == NewDir(m, base)
  {
    NewDirInv(m, base);
  }

  /** env_alloc case by case. */
  lemma AllocCases(s: Pool, base: Frame)
    requires PoolInv(s)
    ensures
      var r := EnvLife.EnvAlloc(s, base);
      && (s.free == [] ==> r == NoSlot(s))
      && (s.free != [] && s.m.free == [] ==> r == NoFrame(s))
      && (s.free != [] && s.m.free != [] ==>
            && s.m.free[0] < |s.m.mem| == |s.m.refs|
            && var m, a, e := NewDir(s.m, base), Unused(s.used, 0), s.free[0];
               if a == NASID then r == NoAsid(s.(m := m))
               else r == Made(Pool(m, s.used + {a}, s.free[1..], s.envs[e := Env(s.m.free[0], a)]), e) && PoolInv(r.s))
  {
    if s.free != [] && s.m.free != [] {
      NewDirInv(s.m, base);
      if Unused(s.used, 0) != NASID { MadeIs(s, base); }
    }
  }

  lemma InOrder(s: seq<nat>)
    requires s == seq(NENV, i => i)
    ensures SlotsOk<Env>(s, map[]) && DirsOk({}, map[]) && AsidsOk({}, map[])
  {
    forall e: nat ensures e in s <==> e < NENV {
      if e < NENV { assert s[e] == e; }
    }
  }

  class EnvPool {
    const pages: PhysicalMemory
    const asids: AsidMap
    /** env_free_list, threaded through the env_link fields. */
    const list: List
    /** env_pgdir and env_asid of each env; a free env keeps what it had. */
    var pgdir: seq<nat>
    var asid: seq<nat>
    /** The envs that are not free. */
    ghost var envs: map<nat, Env>

    ghost function State(): (s: Pool)
      reads this, list, pages, pages.list, asids
    {
      Pool(pages.State(), asids.Used(), list.items, envs)
    }

    /** The objects are apart and each is valid. */
    ghost predicate Parts()
      reads this, list, list.next, list.prev, pages, pages.list, pages.list.next, pages.list.prev, asids
    {
      && pages.list != list
      && {list.next as object, list.prev} !! {pages.list.next as object, pages.list.prev}
      && list.Valid() && list.next.Length == NENV && pages.Valid() && asids.Valid() && Recorded()
    }

    /** And together they satisfy the pool's invariant. */
    ghost predicate Valid()
      reads this, list, list.next, list.prev, pages, pages.list, pages.list.next, pages.list.prev, asids
    {
      Parts() && PoolInv(State())
    }

    /** Each env's fields are what the pool says. */
    ghost predicate Recorded()
      reads this
    {
      |pgdir| == |asid| == NENV && forall e :: e in envs ==> e < NENV && envs[e] == Env(pgdir[e], asid[e])
    }

    /** The arrays behind both lists are the same objects. */
    twostate predicate SameLists()
      reads list, pages.list
    {
      list.next == old(list.next) && list.prev == old(list.prev)
      && pages.list.next == old(pages.list.next) && pages.list.prev == old(pages.list.prev)
    }

    /** env_init: every env onto the free list, from the last to the first, so that the list is
        in the order of the array. */
    constructor (p: PhysicalMemory)
      requires p.Valid() && p.dirs == {}
      ensures Valid() && pages == p && fresh(list) && fresh(list.next) && fresh(list.prev) && fresh(asids)
      ensures State() == Pool(p.State(), {}, seq(NENV, i => i), map[])
    {
      pages := p;
      asids := new AsidMap();
      list := new List(NENV);
      pgdir, asid, envs := seq(NENV, _ => 0), seq(NENV, _ => 0), map[];
      new;
      hide Inv;
      for i := NENV downto 0
        invariant list.Valid() && list.next.Length == NENV && fresh(list.next) && fresh(list.prev)
        invariant list.items == seq(NENV - i, k => i + k)
        invariant asids.Valid() && asids.Used() == {} && p.Valid() && p.State() == old(p.State())
        invariant Recorded() && envs == map[]
      {
        list.InsertHead(i);
      }
      InOrder(list.items);
      hide SlotsOk, DirsOk, AsidsOk, Linked;
    }

    /** env_alloc, up to the fields that do not matter here. */
    method EnvAlloc(base: Frame) returns (r: Status, e: nat)
      requires Valid()
      modifies this, list, list.next, list.prev, pages, pages.list, pages.list.next, pages.list.prev, asids
      ensures SameLists()
      ensures
        var a := EnvLife.EnvAlloc(old(State()), base);
        && (r == Ok <==> a.Made?) && (r == NoMemory <==> a.NoFrame?) && (r == Ok ==> e == a.e && Valid())
        && State() == a.s
    {
      ghost var s := State();
      AllocCases(s, base);
      if list.first.Null? {
        return NoFreeEnv, 0;
      }
      assert LinkedAt(list.next[..], list.prev[..], list.items, 0);
      e := list.first.i;
      assert e == s.free[0] && e in list.items && e !in envs && e < NENV;
      hide Inv, Linked, PoolInv, NewDir, EnvLife.EnvAlloc, Unused;
      var ok, p := SetupVm(e, base);
      if !ok {
        return NoMemory, 0;
      }
      var found := TakeAsid(e, p);
      if !found {
        return NoFreeEnv, 0;
      }
      r := Ok;
    }

    /** The end of env_alloc: the smallest unused ASID, and the slot off the free list. */
    method TakeAsid(e: nat, ghost p: nat) returns (found: bool)
      requires Parts() && list.items != [] && e == list.items[0] && e !in envs && e < NENV && pgdir[e] == p
      modifies this`asid, this`envs, list, list.next, list.prev, asids
      ensures Parts() && SameLists()
      ensures var s, a := old(State()), Unused(old(State()).used, 0);
              && (found <==> a < NASID) && (!found ==> State() == s)
              && (found ==> State() == Pool(s.m, s.used + {a}, s.free[1..], s.envs[e := Env(p, a)]))
    {
      hide Inv, Linked, Unused;
      var a;
      found, a := asids.Alloc();
      SmallestUnused(old(State()).used, if found then a else NASID);
      if found {
        TakeSlot(e, p, a);
      }
    }

    /** env_setup_vm for env e. */
    method SetupVm(e: nat, base: Frame) returns (ok: bool, p: nat)
      requires Parts() && e < NENV && e !in envs
      modifies this`pgdir, pages, pages.list, pages.list.next, pages.list.prev
      ensures Parts() && SameLists()
      ensures ok <==> old(State()).m.free != []
      ensures ok ==> old(State()).m.free[0] < |old(State()).m.mem| == |old(State()).m.refs|
      ensures ok ==> State() == old(State()).(m := NewDir(old(State()).m, base))
      ensures ok ==> p == pgdir[e] == old(State()).m.free[0]
      ensures !ok ==> State() == old(State())
    {
      if pages.list.items != [] { NewEnvIsNewDir(pages.State(), base); }
      hide Inv, Linked, NewDir, Apply;
      ok, p := pages.EnvSetupVm(base);
      if ok {
        pgdir := pgdir[e := p];
      }
    }

    /** Its end: the ASID is recorded and the slot leaves the free list. */
    method TakeSlot(e: nat, ghost p: nat, a: nat)
      requires list.Valid() && list.items != [] && e == list.items[0] && e !in envs && e < NENV
      requires Recorded() && pgdir[e] == p
      modifies this`asid, this`envs, list, list.next, list.prev
      ensures list.Valid() && list.next == old(list.next) && list.prev == old(list.prev)
      ensures Recorded() && envs == old(envs)[e := Env(p, a)] && list.items == old(list.items)[1..]
    {
      asid := asid[e := a];
      DropFirst(list.items);
      list.Remove(e);
      envs := envs[e := Env(p, a)];
    }

    /** env_free of an env that holds its slot, with nobody else at work. */
    method EnvFree(e: nat)
      requires Valid() && e in envs
      modifies this, list, list.next, list.prev, pages, pages.list, pages.list.next, pages.list.prev, asids
      ensures Valid() && SameLists()
      ensures State() == EnvLife.EnvFree(old(State()), e)
    {
      ghost var s := State();
      EnvFreeInv(s, e);
      assert HasAsid(s.envs, s.envs[e].asid);
      pages.EnvFree(pgdir[e]);
      asids.Free(asid[e]);
      list.InsertHead(e);
      envs := envs - {e};
    }
  }
}
