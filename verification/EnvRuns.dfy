/** Envs coming and going on several CPUs: env_alloc, every operation on frames and page tables, and
    env_free section by section, interleaved at will.  What an env holds, a slot, a directory with
    its pages and an ASID, it gives back in three places (kern/env.c:456-476), and other CPUs see
    all states in between. */
module EnvRuns {
  import opened Queue
  import opened Pmap
  import opened PmapSteps
  import opened PageMap
  import opened PmapRuns
  import EnvDeath
  import EnvLife
  import Asid

  /** How far env_free is with an env. */
  datatype Stage = Live | Dying | DirGone | AsidGone

  datatype Env = Env(dir: nat, asid: nat, stage: Stage) {
    predicate HasDir() { stage.Live? || stage.Dying? }
    predicate HasAsid() { !stage.AsidGone? }
  }

  /** Memory with the directories being freed, the ASIDs in use, env_free_list, the envs that are
      not free, and the directories env_alloc lost. */
  datatype System = System(k: EnvDeath.Kernel, used: set<nat>, free: seq<nat>, envs: map<nat, Env>, lost: set<nat>)

  ghost function DirsOf(envs: map<nat, Env>): (r: set<nat>) { set e | e in envs && envs[e].HasDir() :: envs[e].dir }

  ghost function DyingOf(envs: map<nat, Env>): (r: set<nat>) {
    set e | e in envs && envs[e].stage.Dying? :: envs[e].dir
  }

  ghost function AsidsOf(envs: map<nat, Env>): (r: set<nat>) { set e | e in envs && envs[e].HasAsid() :: envs[e].asid }

  /** No two envs hold the same directory or the same ASID. */
  ghost predicate Apart(envs: map<nat, Env>) {
    forall e, x :: e in envs && x in envs && e != x ==>
      && (envs[e].HasDir() && envs[x].HasDir() ==> envs[e].dir != envs[x].dir)
      && (envs[e].HasAsid() && envs[x].HasAsid() ==> envs[e].asid != envs[x].asid)
  }

  /** A lost directory has its one reference and no page. */
  ghost predicate LostOk(m: Memory, lost: set<nat>) {
    forall x: Slot, f: nat :: x.d in lost && Names(m, x, f) ==> x.Dir?
  }

  ghost predicate Holdings(s: System) {
    && Apart(s.envs)
    && s.k.m.dirs == s.lost + DirsOf(s.envs) && s.lost !! DirsOf(s.envs)
    && s.k.dying.Keys == DyingOf(s.envs)
    && s.used == AsidsOf(s.envs) && (forall a :: a in s.used ==> a < Asid.NASID)
  }

  ghost predicate SysInv(s: System) {
    EnvDeath.KInv(s.k) && EnvLife.SlotsOk(s.free, s.envs) && LostOk(s.k.m, s.lost) && Holdings(s)
  }

  // ---------------------------------------------------------------------------
  // Steps

  datatype Step =
    | Alloc(base: Frame)
    | Do(op: Op)
    | Start(e: nat)
    | Free(e: nat)
    | FreeAsid(e: nat)
    | FreeSlot(e: nat)

  /** Any CPU may take any step; operations go to directories of envs, and insert nothing behind
      env_free. */
  ghost predicate Enabled(s: System, x: Step) {
    match x
    case Alloc(_) => true
    case Do(op) =>
      && EnvDeath.Enabled(s.k, EnvDeath.Do(op)) && !op.NewEnv?
      && (op.Insert? || op.Remove? ==> op.d !in s.lost)
    case Start(e) => e in s.envs && s.envs[e].stage.Live?
    case Free(e) => e in s.envs && s.envs[e].stage.Dying?
    case FreeAsid(e) => e in s.envs && s.envs[e].stage.DirGone?
    case FreeSlot(e) => e in s.envs && s.envs[e].stage.AsidGone?
  }

  /** env_alloc takes a directory and then finds no ASID. */
  ghost predicate Loses(s: System, x: Step) {
    x.Alloc? && s.free != [] && s.k.m.free != [] && EnvLife.Unused(s.used, 0) == Asid.NASID
  }

  function EnvAlloc(s: System, base: Frame): (r: System)
    requires EnvDeath.KInv(s.k)
  {
    if s.free == [] || s.k.m.free == [] then s
    else
      NewDirInv(s.k.m, base);
      var k, a, d := s.k.(m := NewDir(s.k.m, base)), EnvLife.Unused(s.used, 0), s.k.m.free[0];
      if a == Asid.NASID then s.(k := k, lost := s.lost + {d})
      else System(k, s.used + {a}, s.free[1..], s.envs[s.free[0] := Env(d, a, Live)], s.lost)
  }

  function SetStage(s: System, e: nat, st: Stage): (r: System)
    requires e in s.envs
  {
    s.(envs := s.envs[e := s.envs[e].(stage := st)])
  }

  function Next(s: System, x: Step): (r: System)
    requires SysInv(s) && Enabled(s, x)
  {
    match x
    case Alloc(base) => EnvAlloc(s, base)
    case Do(op) => s.(k := EnvDeath.Next(s.k, EnvDeath.Do(op)))
    case Start(e) => SetStage(s, e, Dying).(k := s.k.(dying := s.k.dying[s.envs[e].dir := EnvDeath.Head(0)]))
    case Free(e) =>
      assert s.envs[e].dir in DyingOf(s.envs);
      var k := EnvDeath.Turn(s.k, s.envs[e].dir);
      (if s.envs[e].dir in k.dying then s else SetStage(s, e, DirGone)).(k := k)
    case FreeAsid(e) => SetStage(s, e, AsidGone).(used := s.used - {s.envs[e].asid})
    case FreeSlot(e) => s.(free := [e] + s.free, envs := s.envs - {e})
  }

  // ---------------------------------------------------------------------------
  // Every step keeps the invariant

  function If(b: bool, x: nat): (r: set<nat>) { if b then {x} else {} }

  /** What the envs hold together after one of them changed. */
  lemma Changed(envs: map<nat, Env>, e: nat, v: Env)
    requires Apart(envs)
    requires v.HasDir() ==> v.dir !in DirsOf(envs) || (e in envs && envs[e].HasDir() && envs[e].dir == v.dir)
    requires v.HasAsid() ==> v.asid !in AsidsOf(envs) || (e in envs && envs[e].HasAsid() && envs[e].asid == v.asid)
    ensures
      var r, was := envs[e := v], if e in envs then envs[e] else v.(stage := AsidGone);
      && Apart(r)
      && DirsOf(r) == DirsOf(envs) - If(was.HasDir(), was.dir) + If(v.HasDir(), v.dir)
      && DyingOf(r) == DyingOf(envs) - If(was.stage.Dying?, was.dir) + If(v.stage.Dying?, v.dir)
      && AsidsOf(r) == AsidsOf(envs) - If(was.HasAsid(), was.asid) + If(v.HasAsid(), v.asid)
  {
    var r := envs[e := v];
    forall x | x in envs && x != e ensures r[x] == envs[x] {}
    forall x | x in envs && x != e && envs[x].HasDir() && v.HasDir() ensures envs[x].dir != v.dir {
      assert envs[x].dir in DirsOf(envs);
    }
    forall x | x in envs && x != e && envs[x].HasAsid() && v.HasAsid() ensures envs[x].asid != v.asid {
      assert envs[x].asid in AsidsOf(envs);
    }
    ChangedDirs(envs, e, v);
    ChangedAsids(envs, e, v);
  }

  lemma ChangedDirs(envs: map<nat, Env>, e: nat, v: Env)
    requires Apart(envs)
    requires forall x :: x in envs && x != e && envs[x].HasDir() && v.HasDir() ==> envs[x].dir != v.dir
    ensures
      var r, was := envs[e := v], if e in envs then envs[e] else v.(stage := AsidGone);
      && DirsOf(r) == DirsOf(envs) - If(was.HasDir(), was.dir) + If(v.HasDir(), v.dir)
      && DyingOf(r) == DyingOf(envs) - If(was.stage.Dying?, was.dir) + If(v.stage.Dying?, v.dir)
  {
    var r, was := envs[e := v], if e in envs then envs[e] else v.(stage := AsidGone);
    forall d | d in DirsOf(envs) && !(was.HasDir() && d == was.dir) ensures d in DirsOf(r) {
      var x :| x in envs && envs[x].HasDir() && envs[x].dir == d;
      assert r[x].HasDir() && r[x].dir == d;
    }
    forall d | d in DyingOf(envs) && !(was.stage.Dying? && d == was.dir) ensures d in DyingOf(r) {
      var x :| x in envs && envs[x].stage.Dying? && envs[x].dir == d;
      assert r[x].stage.Dying? && r[x].dir == d;
    }
    assert r[e] == v;
  }

  lemma ChangedAsids(envs: map<nat, Env>, e: nat, v: Env)
    requires Apart(envs)
    requires forall x :: x in envs && x != e && envs[x].HasAsid() && v.HasAsid() ==> envs[x].asid != v.asid
    ensures
      var r, was := envs[e := v], if e in envs then envs[e] else v.(stage := AsidGone);
      AsidsOf(r) == AsidsOf(envs) - If(was.HasAsid(), was.asid) + If(v.HasAsid(), v.asid)
  {
    var r, was := envs[e := v], if e in envs then envs[e] else v.(stage := AsidGone);
    forall a | a in AsidsOf(envs) && !(was.HasAsid() && a == was.asid) ensures a in AsidsOf(r) {
      var x :| x in envs && envs[x].HasAsid() && envs[x].asid == a;
      assert r[x].HasAsid() && r[x].asid == a;
    }
    assert r[e] == v;
  }

  /** An env that holds nothing goes. */
  lemma Gone(envs: map<nat, Env>, e: nat)
    requires Apart(envs) && e in envs && envs[e].stage.AsidGone?
    ensures
      var r := envs - {e};
      Apart(r) && DirsOf(r) == DirsOf(envs) && DyingOf(r) == DyingOf(envs) && AsidsOf(r) == AsidsOf(envs)
  {
    var r := envs - {e};
    forall x | x in envs && x != e ensures x in r && r[x] == envs[x] {}
    forall d | d in DirsOf(envs) ensures d in DirsOf(r) {
      var x :| x in envs && envs[x].HasDir() && envs[x].dir == d;
      assert x in r;
    }
    forall d | d in DyingOf(envs) ensures d in DyingOf(r) {
      var x :| x in envs && envs[x].stage.Dying? && envs[x].dir == d;
      assert x in r;
    }
    forall a | a in AsidsOf(envs) ensures a in AsidsOf(r) {
      var x :| x in envs && envs[x].HasAsid() && envs[x].asid == a;
      assert x in r;
    }
  }

  /** The new directory has no page yet. */
  lemma NewDirLost(m: Memory, base: Frame, lost: set<nat>)
    requires Inv(m) && m.free != [] && LostOk(m, lost)
    ensures m.free[0] < |m.mem| && |m.refs| == |m.mem|
    ensures m.free[0] !in m.dirs && NewDir(m, base).dirs == m.dirs + {m.free[0]}
    ensures LostOk(NewDir(m, base), lost) && LostOk(NewDir(m, base), lost + {m.free[0]})
  {
    NewDirInv(m, base);
    hide NewDir, Inv;
  }

  lemma AllocKernel(k: EnvDeath.Kernel, base: Frame)
    requires EnvDeath.KInv(k) && k.m.free != []
    ensures k.m.free[0] < |k.m.mem| && |k.m.refs| == |k.m.mem| && EnvDeath.KInv(k.(m := NewDir(k.m, base)))
  {
    EnvDeath.NextInv(k, EnvDeath.Do(NewEnv(base)));
    NewDirInv(k.m, base);
  }

  /** A directory that is nobody's and an unused ASID go to a free slot. */
  lemma EnvGains(s: System, m: Memory, x: nat, d: nat, a: nat, free: seq<nat>)
    requires Holdings(s) && x !in s.envs && d !in s.k.m.dirs && m.dirs == s.k.m.dirs + {d}
    requires a !in s.used && a < Asid.NASID
    ensures Holdings(System(s.k.(m := m), s.used + {a}, free, s.envs[x := Env(d, a, Live)], s.lost))
  {
    Changed(s.envs, x, Env(d, a, Live));
    hide DirsOf, DyingOf, AsidsOf, Apart;
  }

  lemma AllocInv(s: System, base: Frame)
    requires SysInv(s)
    ensures SysInv(EnvAlloc(s, base))
  {
    if s.free != [] && s.k.m.free != [] {
      AllocKernel(s.k, base);
      NewDirLost(s.k.m, base, s.lost);
      var m, d, a := NewDir(s.k.m, base), s.k.m.free[0], EnvLife.Unused(s.used, 0);
      hide EnvDeath.KInv, NewDir, LostOk, EnvLife.SlotsOk, EnvLife.Unused;
      if a != Asid.NASID {
        EnvLife.SlotTaken(s.free, s.envs, Env(d, a, Live));
        EnvGains(s, m, s.free[0], d, a, s.free[1..]);
        hide Holdings;
      } else {
        hide DirsOf, DyingOf, AsidsOf, Apart;
      }
    }
  }

  lemma OpInv(s: System, op: Op)
    requires SysInv(s) && Enabled(s, Do(op))
    ensures SysInv(Next(s, Do(op)))
  {
    EnvDeath.NextInv(s.k, EnvDeath.Do(op));
    var d := if op.Insert? || op.Remove? then op.d else 0;
    ApplyOthersSame(s.k.m, op, d);
    if !(op.Insert? || op.Remove?) { ApplyOthersSame(s.k.m, op, 1); }
    hide Inv, Names, EnvDeath.KInv, Apply;
  }

  /** The env gives its directory back. */
  lemma DirLeaves(s: System, e: nat, k: EnvDeath.Kernel)
    requires Holdings(s) && e in s.envs && s.envs[e].stage.Dying?
    requires k.m.dirs == s.k.m.dirs - {s.envs[e].dir} && k.dying.Keys == s.k.dying.Keys - {s.envs[e].dir}
    ensures Holdings(SetStage(s, e, DirGone).(k := k))
  {
    assert s.envs[e].dir in DirsOf(s.envs);
    Changed(s.envs, e, s.envs[e].(stage := DirGone));
    assert s.envs[e].asid in AsidsOf(s.envs);
    hide DirsOf, DyingOf, AsidsOf, Apart;
  }

  lemma TurnInv(s: System, e: nat)
    requires SysInv(s) && Enabled(s, Free(e))
    ensures SysInv(Next(s, Free(e)))
  {
    var d := s.envs[e].dir;
    assert d in DyingOf(s.envs);
    EnvDeath.NextInv(s.k, EnvDeath.Free(d));
    TurnLost(s.k, d, s.lost);
    TurnDirs(s.k, d);
    var k := EnvDeath.Turn(s.k, d);
    hide EnvDeath.KInv, EnvDeath.Turn, LostOk, DirsOf, DyingOf, AsidsOf, Apart, EnvLife.SlotsOk;
    if d in k.dying {
      assert Holdings(s.(k := k));
    } else {
      DirLeaves(s, e, k);
      SameSlots(s.free, s.envs, e, s.envs[e].(stage := DirGone));
    }
    hide Holdings;
  }

  lemma SameSlots(free: seq<nat>, envs: map<nat, Env>, e: nat, v: Env)
    requires EnvLife.SlotsOk(free, envs) && e in envs
    ensures EnvLife.SlotsOk(free, envs[e := v])
  {
  }

  lemma TurnLost(k: EnvDeath.Kernel, d: nat, lost: set<nat>)
    requires EnvDeath.KInv(k) && d in k.dying && LostOk(k.m, lost)
    ensures LostOk(EnvDeath.Turn(k, d).m, lost)
  {
    EnvDeath.TurnInv(k, d);
    hide EnvDeath.Turn, Names, Inv;
  }

  /** The directory goes when it leaves the dying ones, and not before. */
  lemma TurnDirs(k: EnvDeath.Kernel, d: nat)
    requires EnvDeath.KInv(k) && d in k.dying
    ensures
      var r := EnvDeath.Turn(k, d);
      && r.m.dirs == (if d in r.dying then k.m.dirs else k.m.dirs - {d})
      && r.dying.Keys == (if d in r.dying then k.dying.Keys else k.dying.Keys - {d})
  {
    match k.dying[d]
    case Head(i) =>
    case Inner(i, j) =>
      if j < NWORD { PageRemoveCorrect(k.m, d, i, j); }
  }

  lemma StepInv(s: System, x: Step)
    requires SysInv(s) && Enabled(s, x)
    ensures SysInv(Next(s, x))
  {
    match x
    case Alloc(base) => AllocInv(s, base);
    case Do(op) => OpInv(s, op);
    case Start(e) => StartInv(s, e);
    case Free(e) => TurnInv(s, e);
    case FreeAsid(e) => FreeAsidInv(s, e);
    case FreeSlot(e) =>
      Gone(s.envs, e);
      hide EnvDeath.KInv, LostOk, DirsOf, DyingOf, AsidsOf, Apart;
  }

  lemma StartInv(s: System, e: nat)
    requires SysInv(s) && Enabled(s, Start(e))
    ensures SysInv(Next(s, Start(e)))
  {
    var d := s.envs[e].dir;
    assert d in DirsOf(s.envs) && s.envs[e].asid in AsidsOf(s.envs);
    Changed(s.envs, e, s.envs[e].(stage := Dying));
    StartsFresh(s, e);
    EnvDeath.NextInv(s.k, EnvDeath.Start(d));
    SameSlots(s.free, s.envs, e, s.envs[e].(stage := Dying));
    hide EnvDeath.KInv, LostOk, EnvLife.SlotsOk, DirsOf, DyingOf, AsidsOf, Apart;
  }

  lemma FreeAsidInv(s: System, e: nat)
    requires SysInv(s) && Enabled(s, FreeAsid(e))
    ensures SysInv(Next(s, FreeAsid(e)))
  {
    assert s.envs[e].asid in AsidsOf(s.envs);
    Changed(s.envs, e, s.envs[e].(stage := AsidGone));
    SameSlots(s.free, s.envs, e, s.envs[e].(stage := AsidGone));
    hide EnvDeath.KInv, LostOk, EnvLife.SlotsOk, DirsOf, DyingOf, AsidsOf, Apart;
  }

  lemma StartsFresh(s: System, e: nat)
    requires SysInv(s) && Enabled(s, Start(e))
    ensures s.envs[e].dir !in s.k.dying
  {
    forall x | x in s.envs && s.envs[x].stage.Dying? ensures s.envs[x].dir != s.envs[e].dir {}
  }

  // ---------------------------------------------------------------------------
  // Runs

  ghost predicate Legal(s: System, xs: seq<Step>)
    requires SysInv(s)
    decreases |xs|
  {
    xs == [] || (Enabled(s, xs[0]) && (StepInv(s, xs[0]); Legal(Next(s, xs[0]), xs[1..])))
  }

  ghost function Run(s: System, xs: seq<Step>): (r: System)
    requires SysInv(s) && Legal(s, xs)
    ensures SysInv(r)
    decreases |xs|
  {
    if xs == [] then s else StepInv(s, xs[0]); Run(Next(s, xs[0]), xs[1..])
  }

  /** How often env_alloc found a frame and no ASID. */
  ghost function Losses(s: System, xs: seq<Step>): (n: nat)
    requires SysInv(s) && Legal(s, xs)
    decreases |xs|
  {
    if xs == [] then 0
    else
      StepInv(s, xs[0]);
      (if Loses(s, xs[0]) then 1 else 0) + Losses(Next(s, xs[0]), xs[1..])
  }

  /** page_init and env_init are done. */
  function Booted(boot: nat, mem: seq<Frame>): (s: System)
    requires boot <= |mem|
  {
    System(EnvDeath.Kernel(Boot(boot, mem), map[]), {}, seq(EnvLife.NENV, i => i), map[], {})
  }

  lemma BootedInv(boot: nat, mem: seq<Frame>)
    requires boot <= |mem|
    ensures SysInv(Booted(boot, mem))
  {
    BootInv(boot, mem);
    var s := Booted(boot, mem);
    forall e: nat | e < EnvLife.NENV ensures e in s.free { assert s.free[e] == e; }
  }

  lemma {:induction false} LostCounted(s: System, xs: seq<Step>)
    requires SysInv(s) && Legal(s, xs)
    ensures |Run(s, xs).lost| == |s.lost| + Losses(s, xs) && s.lost <= Run(s, xs).lost
    decreases |xs|
  {
    if xs != [] {
      StepInv(s, xs[0]);
      var r := Next(s, xs[0]);
      LostStep(s, xs[0]);
      hide Next, SysInv;
      LostCounted(r, xs[1..]);
    }
  }

  lemma LostStep(s: System, x: Step)
    requires SysInv(s) && Enabled(s, x)
    ensures |Next(s, x).lost| == |s.lost| + (if Loses(s, x) then 1 else 0) && s.lost <= Next(s, x).lost
  {
    if Loses(s, x) { NewDirInv(s.k.m, x.base); }
  }

  /** When no env is left, every ASID and every slot is free, and every frame that is not boot's, in
      flight or a lost directory. */
  ghost predicate AllBack(s: System) {
    && s.used == {} && s.k.dying == map[] && s.k.m.dirs == s.lost
    && (forall e: nat :: e in s.free <==> e < EnvLife.NENV)
    && (forall f: nat :: f in s.k.m.free <==>
          f < |s.k.m.mem| && f !in s.k.m.reserved && f !in s.k.m.flight && f !in s.lost)
  }

  lemma NobodyLeft(s: System)
    requires SysInv(s) && s.envs == map[]
    ensures AllBack(s)
  {
    assert DirsOf(s.envs) == {} && AsidsOf(s.envs) == {} && DyingOf(s.envs) == {};
    OnlyLost(s);
    hide EnvDeath.KInv, LostOk;
  }

  ghost predicate LegalFromBoot(boot: nat, mem: seq<Frame>, xs: seq<Step>) {
    boot <= |mem| && (BootedInv(boot, mem); Legal(Booted(boot, mem), xs))
  }

  /** Nothing leaks but what env_alloc loses.  In every run from boot, each ASID in use and each
      directory belongs to one env that has yet to give it back, or is a directory lost by a failed
      env_alloc, of which there is one for each such failure; and when no env is left, everything
      else is back. */
  lemma NothingElseLeaks(boot: nat, mem: seq<Frame>, xs: seq<Step>)
    requires LegalFromBoot(boot, mem, xs)
    ensures SysInv(Booted(boot, mem))
    ensures
      var r := Run(Booted(boot, mem), xs);
      && r.used == AsidsOf(r.envs) && r.k.m.dirs == DirsOf(r.envs) + r.lost && Apart(r.envs)
      && |r.lost| == Losses(Booted(boot, mem), xs)
      && (r.envs == map[] ==> AllBack(r))
  {
    BootedInv(boot, mem);
    var s := Booted(boot, mem);
    LostCounted(s, xs);
    var r := Run(s, xs);
    assert Holdings(r);
    if r.envs == map[] { NobodyLeft(r); }
    hide SysInv, AllBack, DirsOf, AsidsOf, DyingOf, Apart;
  }

  lemma OnlyLost(s: System)
    requires SysInv(s) && s.k.m.dirs == s.lost
    ensures forall f: nat :: f in s.k.m.free <==>
              f < |s.k.m.mem| && f !in s.k.m.reserved && f !in s.k.m.flight && f !in s.lost
  {
    var m := s.k.m;
    forall f: nat
      ensures f in m.free <==> f < |m.mem| && f !in m.reserved && f !in m.flight && f !in s.lost
    {
      if f in m.dirs {
        assert Names(m, Dir(f), f);
        Referenced(m, Dir(f), f);
      } else {
        forall x ensures x !in Refs(m, f) { InRefs(m, x, f); }
        assert Refs(m, f) == {};
      }
    }
  }
}
