/** env_free among other CPUs.  It is not one step: each page_remove is a section of pmap_lock
    of its own, and so is giving back each table and the directory (kern/env.c:435-457), and in
    between other CPUs allocate, map and unmap.  What must not happen in between is a mapping
    into a part of the directory that env_free has already passed; that condition is exact. */
module EnvDeath {
  import opened Queue
  import opened Sets
  import opened Pmap
  import opened PmapSteps
  import opened PageMap
  import opened PmapRuns

  /** Where env_free is in a directory: about to look at entry i, or in table i about to look
      at page j. */
  datatype Place = Head(i: nat) | Inner(i: nat, j: nat)

  /** Memory, and the directories being freed. */
  datatype Kernel = Kernel(m: Memory, dying: map<nat, Place>)

  /** The slots env_free has been over. */
  predicate Behind(p: Place, d: nat, s: Slot) {
    s.d == d && !s.Dir? && (s.i < p.i || (p.Inner? && s.Pte? && s.i == p.i && s.j < p.j))
  }

  predicate Passed(p: Place, i: nat, j: nat) { Behind(p, 0, Pte(0, i, j)) }

  /** env_free can take its next step. */
  ghost predicate Ready(m: Memory, d: nat, p: Place) {
    d in m.dirs && p.i <= NUSER && (p.Inner? ==> p.i < NUSER && p.j <= NWORD && HasTable(m, d, p.i))
  }

  /** And nothing is left where it has been. */
  ghost predicate PlaceOk(m: Memory, d: nat, p: Place) {
    Ready(m, d, p) && forall s: Slot, g: nat :: Behind(p, d, s) ==> !Names(m, s, g)
  }

  ghost predicate KInv(k: Kernel) {
    Inv(k.m) && forall d :: d in k.dying ==> PlaceOk(k.m, d, k.dying[d])
  }

  // ---------------------------------------------------------------------------
  // One section of env_free

  lemma TableCounted(m: Memory, d: nat, i: nat)
    requires Inv(m) && d in m.dirs && i < NUSER && HasTable(m, d, i)
    ensures m.refs[Table(m, d, i)] > 0
  {
    assert Names(m, Pde(d, i), Table(m, d, i));
    Referenced(m, Pde(d, i), Table(m, d, i));
  }

  lemma DirCounted(m: Memory, d: nat)
    requires Inv(m) && d in m.dirs
    ensures d < |m.refs| && m.refs[d] > 0
  {
    assert Names(m, Dir(d), d);
    Referenced(m, Dir(d), d);
  }

  /** The test of an entry, the removal of a page, or the return of a table or the directory. */
  function Turn(k: Kernel, d: nat): (r: Kernel)
    requires Inv(k.m) && d in k.dying && Ready(k.m, d, k.dying[d])
  {
    match k.dying[d]
    case Head(i) =>
      if i == NUSER then
        DirCounted(k.m, d);
        Kernel(DropDir(k.m, d), k.dying - {d})
      else k.(dying := k.dying[d := if HasTable(k.m, d, i) then Inner(i, 0) else Head(i + 1)])
    case Inner(i, j) =>
      if j < NWORD then Kernel(PageRemove(k.m, d, i, j), k.dying[d := Inner(i, j + 1)])
      else
        TableCounted(k.m, d, i);
        Kernel(DropTable(k.m, d, i), k.dying[d := Head(i + 1)])
  }

  datatype Step = Do(op: Op) | Start(d: nat) | Free(d: nat)

  /** Any CPU may do any operation of the allocator and the tables, begin to free a directory or
      go on with it; only an insertion behind env_free is excluded. */
  ghost predicate Enabled(k: Kernel, x: Step) {
    match x
    case Do(op) =>
      PmapRuns.Enabled(k.m, op)
      && (op.Insert? && op.d in k.dying ==> !Passed(k.dying[op.d], op.i, op.j))
    case Start(d) => d in k.m.dirs && d !in k.dying
    case Free(d) => d in k.dying
  }

  function Next(k: Kernel, x: Step): (r: Kernel)
    requires KInv(k) && Enabled(k, x)
  {
    match x
    case Do(op) => k.(m := Apply(k.m, op))
    case Start(d) => k.(dying := k.dying[d := Head(0)])
    case Free(d) => Turn(k, d)
  }

  // ---------------------------------------------------------------------------
  // Every step keeps the invariant

  /** Nothing new behind, and the table in hand still there. */
  lemma PlaceKept(m: Memory, r: Memory, d: nat, p: Place)
    requires PlaceOk(m, d, p) && d in r.dirs && DirsInMemory(r)
    requires forall s: Slot, g: nat :: Behind(p, d, s) && Names(r, s, g) ==> Names(m, s, g)
    requires forall g: nat :: Names(m, Pde(d, p.i), g) ==> Names(r, Pde(d, p.i), g)
    ensures PlaceOk(r, d, p)
  {
    if p.Inner? { assert Names(m, Pde(d, p.i), Table(m, d, p.i)); }
  }

  lemma InsertPlace(m: Memory, op: Op, d: nat, p: Place)
    requires Inv(m) && op.Insert? && PmapRuns.Enabled(m, op) && PlaceOk(m, d, p)
    requires op.d == d ==> !Passed(p, op.i, op.j)
    ensures PlaceOk(Apply(m, op), d, p)
  {
    var r := Apply(m, op);
    PageInsertCorrect(m, op.d, op.i, op.j, op.f, op.perm);
    if PageInsert(m, op.d, op.i, op.j, op.f, op.perm).Done? {
      forall s: Slot, g: nat | s.d == d && !s.Dir?
        ensures Behind(p, d, s) && Names(r, s, g) ==> Names(m, s, g)
        ensures s == Pde(d, p.i) && Names(m, s, g) ==> Names(r, s, g)
      {
        PageInsertNames(m, op.d, op.i, op.j, op.f, op.perm, s, g);
      }
    }
    PlaceKept(m, r, d, p);
  }

  lemma OtherOpPlace(m: Memory, op: Op, d: nat, p: Place)
    requires Inv(m) && !op.Insert? && PmapRuns.Enabled(m, op) && PlaceOk(m, d, p)
    ensures PlaceOk(Apply(m, op), d, p)
  {
    var r := Apply(m, op);
    match op {
      case Alloc => if m.free != [] { PageAllocInv(m); }
      case Remove(d', i, j) => PageRemoveCorrect(m, d', i, j);
      case Store(f, k, e) => StoreInv(m, f, k, e);
      case NewEnv(base) => if m.free != [] { NewDirInv(m, base); }
    }
    PlaceKept(m, r, d, p);
  }

  /** A section of env_free keeps the invariant, takes away slots of its own directory only, and
      changes no page of another. */
  lemma TurnInv(k: Kernel, d: nat)
    requires KInv(k) && d in k.dying
    ensures Inv(Turn(k, d).m) && (d in Turn(k, d).dying ==> PlaceOk(Turn(k, d).m, d, Turn(k, d).dying[d]))
    ensures k.m.dirs - {d} <= Turn(k, d).m.dirs <= k.m.dirs && Turn(k, d).m.flight == k.m.flight
    ensures SameLayout(k.m, Turn(k, d).m)
    ensures forall s: Slot, g: nat :: s.d != d ==> (Names(Turn(k, d).m, s, g) <==> Names(k.m, s, g))
    ensures forall s: Slot, g: nat :: Names(Turn(k, d).m, s, g) ==> Names(k.m, s, g)
    ensures forall d', i: nat, j: nat :: d' in k.m.dirs && d' != d && i < NUSER ==>
              Lookup(Turn(k, d).m, d', i, j) == Lookup(k.m, d', i, j)
  {
    var m, p, t := k.m, k.dying[d], Turn(k, d);
    match p
    case Head(i) =>
      if i == NUSER {
        forall n: nat | n < NUSER ensures !HasTable(m, d, n) {
          assert !Names(m, Pde(d, n), if HasTable(m, d, n) then Table(m, d, n) else 0);
        }
        DropDirInv(m, d);
      } else if !HasTable(m, d, i) {
        forall s: Slot, g: nat | Behind(Head(i + 1), d, s) ensures !Names(m, s, g) { }
      }
    case Inner(i, j) =>
      if j < NWORD {
        PageRemoveCorrect(m, d, i, j);
        assert Names(m, Pde(d, i), Table(m, d, i));
        assert Names(t.m, Pde(d, i), Table(m, d, i));
      } else {
        forall n: nat | n < NWORD ensures !Lookup(m, d, i, n).Valid() {
          assert !Names(m, Pte(d, i, n), Lookup(m, d, i, n).ppn);
        }
        DropTableInv(m, d, i);
      }
  }

  lemma NextInv(k: Kernel, x: Step)
    requires KInv(k) && Enabled(k, x)
    ensures KInv(Next(k, x))
  {
    var r := Next(k, x);
    match x
    case Do(op) =>
      forall d | d in r.dying ensures PlaceOk(r.m, d, r.dying[d]) {
        if op.Insert? { InsertPlace(k.m, op, d, k.dying[d]); } else { OtherOpPlace(k.m, op, d, k.dying[d]); }
      }
    case Start(_) =>
    case Free(d) =>
      TurnInv(k, d);
      forall e | e in r.dying && e != d ensures PlaceOk(r.m, e, r.dying[e]) {
        PlaceKept(k.m, r.m, e, k.dying[e]);
      }
  }

  ghost predicate Legal(k: Kernel, xs: seq<Step>)
    requires KInv(k)
    decreases |xs|
  {
    xs == [] || (Enabled(k, xs[0]) && (NextInv(k, xs[0]); Legal(Next(k, xs[0]), xs[1..])))
  }

  ghost function Run(k: Kernel, xs: seq<Step>): (r: Kernel)
    requires KInv(k) && Legal(k, xs)
    ensures KInv(r)
    decreases |xs|
  {
    if xs == [] then k else NextInv(k, xs[0]); Run(Next(k, xs[0]), xs[1..])
  }

  /** A run of the kernel from boot. */
  ghost predicate LegalFromBoot(boot: nat, mem: seq<Frame>, xs: seq<Step>) {
    boot <= |mem| && (BootInv(boot, mem); Legal(Kernel(Boot(boot, mem), map[]), xs))
  }

  /** Reference conservation over every run from boot, with any number of envs being freed at
      once: each count is the number of slots naming the frame; the free list holds, without
      repeats, exactly the unreferenced frames that are not in flight; tables and directories
      have one owner; and a directory being freed has nothing left where env_free has been. */
  lemma Conservation(boot: nat, mem: seq<Frame>, xs: seq<Step>)
    requires LegalFromBoot(boot, mem, xs)
    ensures KInv(Kernel(Boot(boot, mem), map[]))
    ensures
      var k := Run(Kernel(Boot(boot, mem), map[]), xs);
      var m := k.m;
      && (forall f: nat :: f < |m.mem| && f !in m.reserved ==> m.refs[f] == |Refs(m, f)|)
      && Distinct(m.free)
      && (forall f: nat :: f in m.free <==> f < |m.mem| && f !in m.reserved && f !in m.flight && Refs(m, f) == {})
      && (forall s, t, f: nat :: Names(m, s, f) && Names(m, t, f) && !s.Pte? ==> s == t)
      && (forall d, s, g: nat :: d in k.dying && Behind(k.dying[d], d, s) ==> !Names(m, s, g))
  {
    BootInv(boot, mem);
  }

  // ---------------------------------------------------------------------------
  // The condition is exact

  /** An insertion into a directory that is being freed keeps the invariant if and only if
      env_free has yet to come by. */
  lemma InsertWhileFreeingIff(k: Kernel, d: nat, i: nat, j: nat, f: nat, perm: set<Flag>)
    requires KInv(k) && d in k.dying && UserPage(k.m, d, i, j) && Insertable(k.m, f) && Room(k.m, f)
    requires PageInsert(k.m, d, i, j, f, perm).Done?
    ensures KInv(k.(m := PageInsert(k.m, d, i, j, f, perm).m)) <==> !Passed(k.dying[d], i, j)
  {
    if Passed(k.dying[d], i, j) {
      PageInsertNames(k.m, d, i, j, f, perm, Pte(d, i, j), f);
      assert Behind(k.dying[d], d, Pte(d, i, j));
    } else {
      NextInv(k, Do(Insert(d, i, j, f, perm)));
    }
  }

  /** What giving back a table takes away, whether it is empty or not. */
  lemma DropTableTakes(m: Memory, d: nat, i: nat, t: Slot, g: nat)
    requires Inv(m) && d in m.dirs && i < NUSER && HasTable(m, d, i) && m.refs[Table(m, d, i)] > 0
    ensures Names(DropTable(m, d, i), t, g) <==> Names(m, t, g) && !(t.d == d && !t.Dir? && t.i == i)
  {
    assert Names(m, Dir(d), d);
    if t.d in m.dirs {
      assert Names(m, Dir(t.d), t.d);
      if !t.Dir? && HasTable(m, t.d, t.i) && t.i < NUSER {
        assert Names(m, Pde(t.d, t.i), Table(m, t.d, t.i));
      }
    }
  }

  /** A count that no longer has its slot. */
  lemma LostSlot(m: Memory, r: Memory, s: Slot, f: nat)
    requires Inv(m) && Names(m, s, f) && !Names(r, s, f) && f < |r.refs| && r.refs[f] == m.refs[f]
    requires r.reserved == m.reserved && forall t :: Names(r, t, f) ==> Names(m, t, f)
    ensures !Inv(r)
  {
    Referenced(m, s, f);
    if Inv(r) {
      forall t ensures t in Refs(r, f) ==> t in Refs(m, f) - {s} {
        InRefs(m, t, f);
        InRefs(r, t, f);
      }
      InRefs(m, s, f);
      SubsetSize(Refs(r, f), Refs(m, f) - {s});
    }
  }

  /** Giving back a table conserves references if and only if no page of it is valid. */
  lemma DropTableKeepsInvIff(m: Memory, d: nat, i: nat)
    requires Inv(m) && d in m.dirs && i < NUSER && HasTable(m, d, i) && m.refs[Table(m, d, i)] > 0
    ensures Inv(DropTable(m, d, i)) <==> forall j: nat :: j < NWORD ==> !Lookup(m, d, i, j).Valid()
  {
    if j: nat :| j < NWORD && Lookup(m, d, i, j).Valid() {
      var f, s, r := Lookup(m, d, i, j).ppn, Pte(d, i, j), DropTable(m, d, i);
      assert Names(m, s, f) && Names(m, Pde(d, i), Table(m, d, i));
      Referenced(m, s, f);
      forall t ensures (Names(r, t, f) ==> Names(m, t, f)) && (t == s ==> !Names(r, t, f)) {
        DropTableTakes(m, d, i, t, f);
      }
      LostSlot(m, r, s, f);
    } else {
      DropTableInv(m, d, i);
    }
  }

  /** Giving back a directory does so if and only if it has no table. */
  lemma DropDirKeepsInvIff(m: Memory, d: nat)
    requires Inv(m) && d in m.dirs && d < |m.refs| && m.refs[d] > 0
    ensures Inv(DropDir(m, d)) <==> forall i: nat :: i < NUSER ==> !HasTable(m, d, i)
  {
    if i: nat :| i < NUSER && HasTable(m, d, i) {
      var f, s, r := Table(m, d, i), Pde(d, i), DropDir(m, d);
      assert Names(m, s, f) && Names(m, Dir(d), d);
      Referenced(m, s, f);
      LostSlot(m, r, s, f);
    } else {
      DropDirInv(m, d);
    }
  }

  // ---------------------------------------------------------------------------
  // The interleaving that fails

  /** A page behind env_free, mapped there by another CPU. */
  ghost predicate Stranded(k: Kernel, d: nat, i: nat, j: nat) {
    && Inv(k.m) && d in k.dying && Ready(k.m, d, k.dying[d]) && i < NUSER && j < NWORD
    && Passed(k.dying[d], i, j) && Lookup(k.m, d, i, j).Valid()
  }

  /** env_free goes on past it, or breaks the counts. */
  lemma StrandedTurn(k: Kernel, d: nat, i: nat, j: nat)
    requires Stranded(k, d, i, j)
    ensures !Inv(Turn(k, d).m) || Stranded(Turn(k, d), d, i, j)
  {
    var m, p := k.m, k.dying[d];
    assert HasTable(m, d, i);
    match p
    case Head(n) =>
      if n == NUSER {
        DirCounted(m, d);
        DropDirKeepsInvIff(m, d);
      }
    case Inner(n, q) =>
      if q < NWORD {
        PageRemoveCorrect(m, d, n, q);
        assert Names(m, Pde(d, n), Table(m, d, n));
        PageRemoveAt(m, d, n, q, Pde(d, n), Table(m, d, n));
        assert Lookup(PageRemove(m, d, n, q), d, i, j) == Lookup(m, d, i, j);
      } else {
        TableCounted(m, d, n);
        if i == n {
          DropTableKeepsInvIff(m, d, n);
        } else {
          DropTableLookup(m, d, n, d, i, j);
        }
      }
  }

  /** Within n more sections env_free breaks conservation, nobody else doing anything. */
  ghost predicate Breaks(k: Kernel, d: nat, n: nat)
    decreases n
  {
    && Inv(k.m) && d in k.dying && Ready(k.m, d, k.dying[d])
    && (!Inv(Turn(k, d).m) || (n > 0 && Breaks(Turn(k, d), d, n - 1)))
  }

  lemma {:induction false} StrandedBreaks(k: Kernel, d: nat, i: nat, j: nat) returns (n: nat)
    requires Stranded(k, d, i, j)
    ensures Breaks(k, d, n)
    decreases NUSER - k.dying[d].i, k.dying[d].Head?, if k.dying[d].Inner? then NWORD - k.dying[d].j else 0
  {
    hide Inv;
    StrandedTurn(k, d, i, j);
    var t := Turn(k, d);
    if Inv(t.m) {
      n := StrandedBreaks(t, d, i, j);
      n := n + 1;
    } else {
      n := 0;
    }
  }

  /** From any state in which env_free is at work: a page that another CPU maps where it has
      been makes env_free break conservation before it ends. */
  lemma InsertBehindBreaks(k: Kernel, d: nat, i: nat, j: nat, f: nat, perm: set<Flag>)
    requires KInv(k) && d in k.dying && UserPage(k.m, d, i, j) && Insertable(k.m, f) && Room(k.m, f)
    requires PageInsert(k.m, d, i, j, f, perm).Done? && Passed(k.dying[d], i, j)
    ensures exists n: nat :: Breaks(k.(m := PageInsert(k.m, d, i, j, f, perm).m), d, n)
  {
    PageInsertCorrect(k.m, d, i, j, f, perm);
    var r := k.(m := PageInsert(k.m, d, i, j, f, perm).m);
    var p := k.dying[d];
    if p.Inner? {
      assert Names(k.m, Pde(d, p.i), Table(k.m, d, p.i));
      PageInsertNames(k.m, d, i, j, f, perm, Pde(d, p.i), Table(k.m, d, p.i));
    }
    var n := StrandedBreaks(r, d, i, j);
  }

  /** After the directory is given back the env still looks alive until its slot is freed, and an
      insertion that has to make a table then counts a frame no slot names; right after the drop
      that frame is the directory itself. */
  lemma InsertAfterDropBreaks(m: Memory, d: nat, i: nat)
    requires Inv(m) && d < |m.mem| && d !in m.reserved && m.refs[d] == 0 && i < NUSER && m.free != []
    ensures m.free[0] < |m.mem| && !Inv(NewTable(m, d, i))
  {
    var f := m.free[0];
    assert f in m.free;
    Unreferenced(m, f);
    Unreferenced(m, d);
    var r := NewTable(m, d, i);
    var a := PageAlloc(m);
    PageAllocInv(m);
    if f == d {
      OverwriteKeepsWalks(m, SetWord(a, d, i, Made(d, {})), d);
    } else {
      OverwriteKeepsWalks(a, SetWord(a, d, i, Made(f, {})), d);
    }
    forall s ensures s !in Refs(r, f) {
      InRefs(r, s, f);
      Reframe(SetWord(a, d, i, Made(f, {})), r, s, f);
    }
    assert r.refs[f] == 1 && Refs(r, f) == {};
  }

  // ---------------------------------------------------------------------------
  // Undisturbed, the sections add up to EnvFree

  /** n sections of env_free in a row lead from k to t. */
  ghost predicate Leads(k: Kernel, d: nat, n: nat, t: Kernel)
    decreases n
  {
    if n == 0 then k == t
    else Inv(k.m) && d in k.dying && Ready(k.m, d, k.dying[d]) && Leads(Turn(k, d), d, n - 1, t)
  }

  lemma {:induction false} LeadsOn(k: Kernel, d: nat, n: nat, t: Kernel, u: Kernel)
    requires Leads(k, d, n, t) && Inv(t.m) && d in t.dying && Ready(t.m, d, t.dying[d]) && u == Turn(t, d)
    ensures Leads(k, d, n + 1, u)
    decreases n
  {
    hide Inv, Turn, Ready;
    if n > 0 {
      LeadsOn(Turn(k, d), d, n - 1, t, u);
    } else {
      assert Leads(u, d, 0, u);
    }
  }

  lemma {:induction false} InnerLeads(k: Kernel, m: Memory, dy: map<nat, Place>, d: nat, i: nat, n: nat, j: nat)
    requires Inv(m) && d in m.dirs && i < NUSER && HasTable(m, d, i) && j <= NWORD
    requires Leads(k, d, n, Kernel(m, dy[d := Inner(i, 0)]))
    ensures Leads(k, d, n + j, Kernel(FreePtes(m, d, i, j), dy[d := Inner(i, j)]))
    decreases j
  {
    hide Leads, Inv, Turn, Ready;
    if j > 0 {
      InnerLeads(k, m, dy, d, i, n, j - 1);
      InnerTurn(m, dy, d, i, j - 1);
      LeadsOn(k, d, n + j - 1, Kernel(FreePtes(m, d, i, j - 1), dy[d := Inner(i, j - 1)]),
              Kernel(FreePtes(m, d, i, j), dy[d := Inner(i, j)]));
    }
  }

  lemma InnerTurn(m: Memory, dy: map<nat, Place>, d: nat, i: nat, j: nat)
    requires Inv(m) && d in m.dirs && i < NUSER && HasTable(m, d, i) && j < NWORD
    ensures
      var t := Kernel(FreePtes(m, d, i, j), dy[d := Inner(i, j)]);
      Ready(t.m, d, t.dying[d]) && Turn(t, d) == Kernel(FreePtes(m, d, i, j + 1), dy[d := Inner(i, j + 1)])
  {
    assert Names(m, Pde(d, i), Table(m, d, i));
    FreePtesCorrect(m, d, i, j, Pde(d, i), Table(m, d, i));
    hide Inv;
    assert dy[d := Inner(i, j)][d := Inner(i, j + 1)] == dy[d := Inner(i, j + 1)];
  }

  lemma {:induction false} HeadLeads(m: Memory, dy: map<nat, Place>, d: nat, i: nat) returns (n: nat)
    requires Inv(m) && d in m.dirs && i <= NUSER
    ensures Leads(Kernel(m, dy[d := Head(0)]), d, n, Kernel(FreePdes(m, d, i), dy[d := Head(i)]))
    decreases i
  {
    hide Leads, Inv;
    var k := Kernel(m, dy[d := Head(0)]);
    if i == 0 {
      n := 0;
      NoTurns(k, d);
    } else {
      n := HeadLeads(m, dy, d, i - 1);
      var p := FreePdes(m, d, i - 1);
      n := OneTable(k, p, dy, d, i - 1, n);
    }
  }

  lemma NoTurns(k: Kernel, d: nat)
    ensures Leads(k, d, 0, k)
  {
  }

  lemma HeldTable(k: Kernel, p: Memory, dy: map<nat, Place>, d: nat, i: nat, n: nat)
    requires Inv(p) && d in p.dirs && i < NUSER && HasTable(p, d, i)
    requires Leads(k, d, n, Kernel(p, dy[d := Head(i)]))
    ensures Leads(k, d, n + 1 + NWORD + 1, Kernel(FreeOneTable(p, d, i), dy[d := Head(i + 1)]))
  {
    hide Leads;
    var t := Kernel(p, dy[d := Head(i)]);
    assert t.dying[d := Inner(i, 0)] == dy[d := Inner(i, 0)];
    LeadsOn(k, d, n, t, Kernel(p, dy[d := Inner(i, 0)]));
    hide Inv;
    InnerLeads(k, p, dy, d, i, n + 1, NWORD);
    FreePtesEmpties(p, d, i);
    var q := Kernel(FreePtes(p, d, i, NWORD), dy[d := Inner(i, NWORD)]);
    assert q.dying[d := Head(i + 1)] == dy[d := Head(i + 1)];
    LeadsOn(k, d, n + 1 + NWORD, q, Kernel(FreeOneTable(p, d, i), dy[d := Head(i + 1)]));
  }

  lemma OneTable(k: Kernel, p: Memory, dy: map<nat, Place>, d: nat, i: nat, n: nat) returns (r: nat)
    requires Inv(p) && d in p.dirs && i < NUSER && Leads(k, d, n, Kernel(p, dy[d := Head(i)]))
    ensures Leads(k, d, r, Kernel(FreeOneTable(p, d, i), dy[d := Head(i + 1)]))
  {
    hide Leads;
    var t := Kernel(p, dy[d := Head(i)]);
    if HasTable(p, d, i) {
      HeldTable(k, p, dy, d, i, n);
      r := n + 1 + NWORD + 1;
    } else {
      assert t.dying[d := Head(i + 1)] == dy[d := Head(i + 1)];
      r := n + 1;
      LeadsOn(k, d, n, t, Kernel(p, dy[d := Head(i + 1)]));
    }
  }

  /** With nobody in between, the sections do what EnvFree says in one go. */
  lemma SectionsAddUp(m: Memory, dy: map<nat, Place>, d: nat) returns (n: nat)
    requires Inv(m) && d in m.dirs && d !in dy
    ensures Leads(Kernel(m, dy[d := Head(0)]), d, n, Kernel(EnvFree(m, d), dy))
  {
    n := HeadLeads(m, dy, d, NUSER);
    var t := Kernel(FreePdes(m, d, NUSER), dy[d := Head(NUSER)]);
    NoTablesLeft(m, d);
    hide Leads;
    assert t.dying - {d} == dy;
    LeadsOn(Kernel(m, dy[d := Head(0)]), d, n, t, Kernel(EnvFree(m, d), dy));
    n := n + 1;
  }
}
