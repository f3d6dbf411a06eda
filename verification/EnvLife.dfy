/** The life of an env over all that it holds: an env slot, a directory with its pages, and an
    ASID (env_alloc and env_free in kern/env.c). */
module EnvLife {
  import opened Queue
  import opened Pmap
  import opened PmapSteps
  import opened PageMap
  import opened PmapRuns
  import Asid

  const NENV: nat := 1024

  /** env_pgdir and env_asid. */
  datatype Env = Env(dir: nat, asid: nat)

  /** Memory, the ASIDs in use, env_free_list, and the envs that are not free. */
  datatype Pool = Pool(m: Memory, used: set<nat>, free: seq<nat>, envs: map<nat, Env>)

  /** Every slot is on the free list or in use. */
  ghost predicate SlotsOk<T>(free: seq<nat>, envs: map<nat, T>) {
    && Distinct(free)
    && (forall e :: e in envs ==> e < NENV)
    && (forall e: nat :: e in free <==> e < NENV && e !in envs)
  }

  ghost predicate HasDir(envs: map<nat, Env>, d: nat) { exists e :: e in envs && envs[e].dir == d }

  ghost predicate HasAsid(envs: map<nat, Env>, a: nat) { exists e :: e in envs && envs[e].asid == a }

  /** Every live directory belongs to exactly one env, and so does every ASID in use. */
  ghost predicate DirsOk(dirs: set<nat>, envs: map<nat, Env>) {
    && (forall d: nat :: d in dirs <==> HasDir(envs, d))
    && (forall e, e' :: e in envs && e' in envs && e != e' ==> envs[e].dir != envs[e'].dir)
  }

  ghost predicate AsidsOk(used: set<nat>, envs: map<nat, Env>) {
    && (forall a: nat :: a in used <==> HasAsid(envs, a))
    && (forall a :: a in used ==> a < Asid.NASID)
    && (forall e, e' :: e in envs && e' in envs && e != e' ==> envs[e].asid != envs[e'].asid)
  }

  ghost predicate PoolInv(s: Pool) {
    Inv(s.m) && SlotsOk(s.free, s.envs) && DirsOk(s.m.dirs, s.envs) && AsidsOk(s.used, s.envs)
  }

  lemma SlotTaken<T>(free: seq<nat>, envs: map<nat, T>, v: T)
    requires SlotsOk(free, envs) && free != []
    ensures free[0] < NENV && free[0] !in envs && free[0] !in free[1..] && SlotsOk(free[1..], envs[free[0] := v])
  {
    var rest, r := free[1..], envs[free[0] := v];
    assert free == [free[0]] + rest && free[0] in free;
    forall i, j | 0 <= i < j < |rest| ensures rest[i] != rest[j] {
      assert rest[i] == free[i + 1] && rest[j] == free[j + 1];
    }
    forall e: nat ensures e in rest <==> e < NENV && e !in r {
      assert e in free <==> e == free[0] || e in rest;
      assert e in rest ==> exists k :: 0 < k < |free| && free[k] == e;
    }
  }

  lemma SlotGiven<T>(free: seq<nat>, envs: map<nat, T>, e: nat)
    requires SlotsOk(free, envs) && e in envs
    ensures SlotsOk([e] + free, envs - {e})
  {
  }

  lemma DirTaken(dirs: set<nat>, envs: map<nat, Env>, e: nat, v: Env)
    requires DirsOk(dirs, envs) && e !in envs && v.dir !in dirs
    ensures DirsOk(dirs + {v.dir}, envs[e := v])
  {
    var r := envs[e := v];
    assert r[e].dir == v.dir;
    forall d: nat ensures d in dirs + {v.dir} <==> HasDir(r, d) {
      if d in dirs {
        var x :| x in envs && envs[x].dir == d;
        assert r[x].dir == d;
      }
    }
    forall x | x in envs ensures v.dir != envs[x].dir { assert HasDir(envs, envs[x].dir); }
  }

  lemma DirGiven(dirs: set<nat>, envs: map<nat, Env>, e: nat)
    requires DirsOk(dirs, envs) && e in envs
    ensures DirsOk(dirs - {envs[e].dir}, envs - {e})
  {
    var r := envs - {e};
    forall d: nat ensures d in dirs - {envs[e].dir} <==> HasDir(r, d) {
      if d in dirs - {envs[e].dir} {
        var x :| x in envs && envs[x].dir == d;
        assert r[x].dir == d;
      }
    }
  }

  lemma AsidTaken(used: set<nat>, envs: map<nat, Env>, e: nat, v: Env)
    requires AsidsOk(used, envs) && e !in envs && v.asid !in used && v.asid < Asid.NASID
    ensures AsidsOk(used + {v.asid}, envs[e := v])
  {
    var r := envs[e := v];
    assert r[e].asid == v.asid;
    forall a: nat ensures a in used + {v.asid} <==> HasAsid(r, a) {
      if a in used {
        var x :| x in envs && envs[x].asid == a;
        assert r[x].asid == a;
      }
    }
    forall x | x in envs ensures v.asid != envs[x].asid { assert HasAsid(envs, envs[x].asid); }
  }

  lemma AsidGiven(used: set<nat>, envs: map<nat, Env>, e: nat)
    requires AsidsOk(used, envs) && e in envs
    ensures AsidsOk(used - {envs[e].asid}, envs - {e})
  {
    var r := envs - {e};
    forall a: nat ensures a in used - {envs[e].asid} <==> HasAsid(r, a) {
      if a in used - {envs[e].asid} {
        var x :| x in envs && envs[x].asid == a;
        assert r[x].asid == a;
      }
    }
  }

  /** The smallest number from n on that is not used, or NASID. */
  function Unused(used: set<nat>, n: nat): (a: nat)
    requires n <= Asid.NASID
    ensures n <= a <= Asid.NASID && (a < Asid.NASID ==> a !in used) && forall b :: n <= b < a ==> b in used
    decreases Asid.NASID - n
  {
    if n == Asid.NASID || n !in used then n else Unused(used, n + 1)
  }

  /** What env_alloc returns. */
  datatype Made = Made(s: Pool, e: nat) | NoSlot(s: Pool) | NoFrame(s: Pool) | NoAsid(s: Pool)

  /** env_alloc: slot, directory, ASID, in that order.  The slot is taken off the list last, and
      the directory is not given back when there is no ASID. */
  function EnvAlloc(s: Pool, base: Frame): (r: Made)
    requires PoolInv(s)
  {
    if s.free == [] then NoSlot(s)
    else if s.m.free == [] then NoFrame(s)
    else
      NewDirInv(s.m, base);
      var m, a := NewDir(s.m, base), Unused(s.used, 0);
      if a == Asid.NASID then NoAsid(s.(m := m))
      else Made(Pool(m, s.used + {a}, s.free[1..], s.envs[s.free[0] := Env(s.m.free[0], a)]), s.free[0])
  }

  /** env_free, with nobody else at work. */
  function EnvFree(s: Pool, e: nat): (r: Pool)
    requires PoolInv(s) && e in s.envs
  {
    assert HasDir(s.envs, s.envs[e].dir);
    Pool(PageMap.EnvFree(s.m, s.envs[e].dir), s.used - {s.envs[e].asid}, [e] + s.free, s.envs - {e})
  }

  /** What a successful env_alloc has taken. */
  lemma MadeIs(s: Pool, base: Frame)
    requires PoolInv(s) && EnvAlloc(s, base).Made?
    ensures s.free != [] && s.m.free != [] && s.m.free[0] < |s.m.mem| && |s.m.refs| == |s.m.mem|
    ensures
      var r := EnvAlloc(s, base);
      var e, a := s.free[0], Unused(s.used, 0);
      && r.e == e && e !in s.envs && a < Asid.NASID && a !in s.used && s.m.free[0] !in s.m.dirs
      && r.s == Pool(NewDir(s.m, base), s.used + {a}, s.free[1..], s.envs[e := Env(s.m.free[0], a)])
      && PoolInv(r.s)
  {
    NewDirInv(s.m, base);
    var e, v := s.free[0], Env(s.m.free[0], Unused(s.used, 0));
    SlotTaken(s.free, s.envs, v);
    DirTaken(s.m.dirs, s.envs, e, v);
    AsidTaken(s.used, s.envs, e, v);
    hide SlotsOk, DirsOk, AsidsOk;
  }

  /** env_alloc strands the directory it set up if and only if a slot and a frame are free and
      all ASIDs are used: it then stays live, with its one reference, and no env has it.  In
      every other case each directory and each ASID still belongs to one env. */
  lemma EnvAllocLeakIff(s: Pool, base: Frame)
    requires PoolInv(s)
    ensures
      var r := EnvAlloc(s, base);
      var full := forall a: nat :: a < Asid.NASID ==> a in s.used;
      && Inv(r.s.m)
      && (PoolInv(r.s) <==> !(s.free != [] && s.m.free != [] && full))
      && (r.Made? <==> s.free != [] && s.m.free != [] && !full)
      && (s.free != [] && s.m.free != [] && full ==>
            && r.NoAsid? && s.m.free[0] < |s.m.mem| == |s.m.refs| && r.s == s.(m := NewDir(s.m, base))
            && s.m.free[0] in r.s.m.dirs && !HasDir(r.s.envs, s.m.free[0]) && r.s.m.free == s.m.free[1..])
      && (r.NoSlot? || r.NoFrame? ==> r.s == s)
  {
    if s.free != [] && s.m.free != [] {
      NewDirInv(s.m, base);
      if Unused(s.used, 0) == Asid.NASID {
        assert forall b: nat :: b < Asid.NASID ==> b in s.used;
        hide Inv, SlotsOk, AsidsOk;
        assert !HasDir(s.envs, s.m.free[0]);
      } else {
        MadeIs(s, base);
      }
    }
  }

  /** env_free ends one env and leaves every other with its directory and its ASID. */
  lemma EnvFreeInv(s: Pool, e: nat)
    requires PoolInv(s) && e in s.envs
    ensures s.envs[e].dir in s.m.dirs && PoolInv(EnvFree(s, e))
  {
    assert HasDir(s.envs, s.envs[e].dir);
    EnvFreeCorrect(s.m, s.envs[e].dir);
    SlotGiven(s.free, s.envs, e);
    DirGiven(s.m.dirs, s.envs, e);
    AsidGiven(s.used, s.envs, e);
    hide Inv, SlotsOk, DirsOk, AsidsOk, PageMap.EnvFree;
  }

  lemma RunKeepsDirs(m: Memory, ops: seq<Op>, d: nat)
    requires Inv(m) && Legal(m, ops) && forall k :: 0 <= k < |ops| ==> OnBehalfOf(ops[k], d)
    ensures Run(m, ops).dirs == m.dirs
  {
    RunOthersSame(m, ops, d);
  }

  /** An env allocated in s that has done ops of its own since, giving c. */
  ghost predicate Lived(s: Pool, base: Frame, b: Made, ops: seq<Op>, c: Pool) {
    && PoolInv(s) && b == EnvAlloc(s, base) && b.Made? && Inv(b.s.m) && Legal(b.s.m, ops)
    && s.m.free != [] && (forall k :: 0 <= k < |ops| ==> OnBehalfOf(ops[k], s.m.free[0]))
    && c == b.s.(m := Run(b.s.m, ops)) && c.m.flight == s.m.flight
  }

  lemma LifePool(s: Pool, base: Frame, b: Made, ops: seq<Op>, c: Pool)
    requires Lived(s, base, b, ops, c)
    ensures PoolInv(c) && b.e in c.envs && c.envs[b.e].dir == s.m.free[0]
    ensures var r := EnvFree(c, b.e); PoolInv(r) && r.used == s.used && r.free == s.free && r.envs == s.envs
  {
    MadeIs(s, base);
    hide Inv, NewDir, PageMap.EnvFree, Unused, EnvAlloc, SlotsOk, DirsOk, AsidsOk;
    RunKeepsDirs(b.s.m, ops, s.m.free[0]);
    hide Run, Legal;
    EnvFreeInv(c, b.e);
    assert EnvFree(c, b.e).envs == s.envs && EnvFree(c, b.e).used == s.used;
  }

  lemma LifeMemory(s: Pool, base: Frame, b: Made, ops: seq<Op>, c: Pool)
    requires Lived(s, base, b, ops, c)
    ensures s.m.free[0] in c.m.dirs && Inv(c.m)
    ensures
      var r := PageMap.EnvFree(c.m, s.m.free[0]);
      && r.dirs == s.m.dirs && SameSpaces(s.m, r) && |r.refs| == |s.m.refs|
      && (forall g: nat :: g < |s.m.refs| && g !in s.m.reserved ==> r.refs[g] == s.m.refs[g])
      && (forall g: nat :: g in r.free <==> g in s.m.free)
  {
    MadeIs(s, base);
    hide Inv, NewDir, PageMap.EnvFree, EnvAlloc, PoolInv, Run, Legal, SameSpaces;
    LifeRestores(s.m, base, ops);
  }

  /** No leak over an env's life.  An env is allocated, does anything with its own pages until
      nothing of its is in flight, and is freed: every counter, the set of free frames, every
      other address space, the set of ASIDs in use and the list of free envs are back to what
      they were. */
  lemma LifeRestoresAll(s: Pool, base: Frame, b: Made, ops: seq<Op>, c: Pool)
    requires Lived(s, base, b, ops, c)
    ensures PoolInv(c) && b.e in c.envs
    ensures
      var r := EnvFree(c, b.e);
      && PoolInv(r) && r.used == s.used && r.free == s.free && r.envs == s.envs
      && r.m.dirs == s.m.dirs && SameSpaces(s.m, r.m) && |r.m.refs| == |s.m.refs|
      && (forall g: nat :: g < |s.m.refs| && g !in s.m.reserved ==> r.m.refs[g] == s.m.refs[g])
      && (forall g: nat :: g in r.m.free <==> g in s.m.free)
  {
    hide PoolInv, Inv, PageMap.EnvFree, SameSpaces, EnvAlloc, Run, Legal;
    LifePool(s, base, b, ops, c);
    LifeMemory(s, base, b, ops, c);
    assert EnvFree(c, b.e).m == PageMap.EnvFree(c.m, s.m.free[0]);
  }
}
