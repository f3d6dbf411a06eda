/** Sequences of operations on frames and page tables: each keeps the invariant that
    page_init sets up, and an env that comes and goes leaves memory as it found it. */
module PmapRuns {
  import opened Pmap
  import opened PmapSteps
  import opened PageMap

  // ---------------------------------------------------------------------------
  // page_init

  /** LIST_INSERT_HEAD of lo, lo + 1, .., hi - 1 in turn. */
  function Descending(lo: nat, hi: nat): (s: seq<nat>)
    requires lo <= hi
    ensures |s| == hi - lo
    ensures forall k :: 0 <= k < |s| ==> s[k] == hi - 1 - k
  {
    if lo == hi then [] else [hi - 1] + Descending(lo, hi - 1)
  }

  /** The state page_init leaves: frames below `boot` used, the others free.  Memory holds
      whatever boot left in it. */
  function Boot(boot: nat, mem: seq<Frame>): (m: Memory)
    requires boot <= |mem|
  {
    Memory(seq(|mem|, i => if i < boot then 1 else 0), Descending(boot, |mem|), mem,
           {}, {}, set f | f in Descending(0, boot))
  }

  lemma BootInv(boot: nat, mem: seq<Frame>)
    requires boot <= |mem|
    ensures Inv(Boot(boot, mem))
  {
    var m := Boot(boot, mem);
    forall f: nat | boot <= f < |mem| ensures f in m.free && |Refs(m, f)| == 0 {
      assert m.free[|mem| - 1 - f] == f;
      assert Refs(m, f) == {};
    }
    forall f: nat | f < boot ensures f in m.reserved {
      assert Descending(0, boot)[boot - 1 - f] == f;
    }
  }

  // ---------------------------------------------------------------------------
  // Operations and runs

  datatype Op =
    | Alloc
    | Insert(d: nat, i: nat, j: nat, f: nat, perm: set<Flag>)
    | Remove(d: nat, i: nat, j: nat)
    | Store(f: nat, k: nat, e: Entry)
    | NewEnv(base: Frame)

  /** What callers owe: pages below UTOP of live directories, and frames that page_alloc or
      page_lookup gave them. */
  ghost predicate Enabled(m: Memory, op: Op) {
    match op
    case Alloc => true
    case Insert(d, i, j, f, perm) => UserPage(m, d, i, j) && Insertable(m, f) && Room(m, f)
    case Remove(d, i, j) => UserPage(m, d, i, j)
    case Store(f, k, e) => Insertable(m, f) && k < NWORD
    case NewEnv(base) => true
  }

  function Apply(m: Memory, op: Op): (r: Memory)
    requires Inv(m) && Enabled(m, op)
    ensures Inv(r)
  {
    match op
    case Alloc =>
      if m.free == [] then m else PageAllocInv(m); PageAlloc(m)
    case Insert(d, i, j, f, perm) =>
      PageInsertCorrect(m, d, i, j, f, perm);
      PageInsert(m, d, i, j, f, perm).m
    case Remove(d, i, j) =>
      PageRemoveCorrect(m, d, i, j);
      PageRemove(m, d, i, j)
    case Store(f, k, e) =>
      StoreInv(m, f, k, e);
      SetWord(m, f, k, e)
    case NewEnv(base) =>
      if m.free == [] then m else NewDirInv(m, base); NewDir(m, base)
  }

  ghost predicate Legal(m: Memory, ops: seq<Op>)
    requires Inv(m)
    decreases |ops|
  {
    ops == [] || (Enabled(m, ops[0]) && Legal(Apply(m, ops[0]), ops[1..]))
  }

  ghost function Run(m: Memory, ops: seq<Op>): (r: Memory)
    requires Inv(m) && Legal(m, ops)
    ensures Inv(r)
    decreases |ops|
  {
    if ops == [] then m else Run(Apply(m, ops[0]), ops[1..])
  }

  // ---------------------------------------------------------------------------
  // The life of one env

  /** op works for the env with directory d: its own pages, fresh frames, user stores. */
  ghost predicate OnBehalfOf(op: Op, d: nat) {
    match op
    case Alloc => true
    case Insert(d', _, _, _, _) => d' == d
    case Remove(d', _, _) => d' == d
    case Store(_, _, _) => true
    case NewEnv(_) => false
  }

  /** Slots and pages of the other directories are the same in both states. */
  ghost predicate OthersSame(m: Memory, r: Memory, d: nat) {
    && m.dirs == r.dirs && |r.mem| == |m.mem| && r.reserved == m.reserved
    && (forall s: Slot, g: nat :: s.d != d ==> (Names(r, s, g) <==> Names(m, s, g)))
    && (forall d', i: nat, j: nat :: d' in m.dirs && d' != d && i < NUSER ==>
          Lookup(r, d', i, j) == Lookup(m, d', i, j))
  }

  lemma ApplyOthersSame(m: Memory, op: Op, d: nat)
    requires Inv(m) && Enabled(m, op) && OnBehalfOf(op, d)
    ensures OthersSame(m, Apply(m, op), d)
  {
    match op
    case Alloc =>
      if m.free != [] { PageAllocInv(m); }
    case Insert(_, i, j, f, perm) =>
      PageInsertCorrect(m, d, i, j, f, perm);
      if PageInsert(m, d, i, j, f, perm).Done? {
        forall s: Slot, g: nat | s.d != d ensures Names(Apply(m, op), s, g) <==> Names(m, s, g) {
          PageInsertNames(m, d, i, j, f, perm, s, g);
        }
      }
    case Remove(_, i, j) =>
      PageRemoveCorrect(m, d, i, j);
    case Store(f, k, e) =>
      StoreInv(m, f, k, e);
  }

  lemma {:induction false} RunOthersSame(m: Memory, ops: seq<Op>, d: nat)
    requires Inv(m) && Legal(m, ops)
    requires forall k :: 0 <= k < |ops| ==> OnBehalfOf(ops[k], d)
    ensures OthersSame(m, Run(m, ops), d)
    decreases |ops|
  {
    if ops != [] {
      var a := Apply(m, ops[0]);
      ApplyOthersSame(m, ops[0], d);
      RunOthersSame(a, ops[1..], d);
      OthersSameTrans(m, a, Run(m, ops), d);
    }
  }

  lemma OthersSameTrans(m: Memory, a: Memory, r: Memory, d: nat)
    requires OthersSame(m, a, d) && OthersSame(a, r, d)
    ensures OthersSame(m, r, d)
  {
  }

  /** env_free leaves every page of every other directory as it was. */
  lemma {:induction false} FreePtesOthers(m: Memory, d: nat, i: nat, n: nat, d': nat, i': nat, j': nat)
    requires Inv(m) && d in m.dirs && i < NUSER && n <= NWORD && d' in m.dirs && d' != d && i' < NUSER
    ensures Lookup(FreePtes(m, d, i, n), d', i', j') == Lookup(m, d', i', j')
  {
    hide Inv, PageRemove, Lookup;
    if n > 0 {
      FreePtesOthers(m, d, i, n - 1, d', i', j');
      PageRemoveOther(FreePtes(m, d, i, n - 1), d, i, n - 1, d', i', j');
    }
  }

  lemma FreeOneTableOthers(m: Memory, d: nat, i: nat, d': nat, i': nat, j': nat)
    requires Inv(m) && d in m.dirs && i < NUSER && d' in m.dirs && d' != d && i' < NUSER
    ensures Lookup(FreeOneTable(m, d, i), d', i', j') == Lookup(m, d', i', j')
  {
    if HasTable(m, d, i) {
      var q := FreePtes(m, d, i, NWORD);
      FreePtesOthers(m, d, i, NWORD, d', i', j');
      FreePtesEmpties(m, d, i);
      DropTableInv(q, d, i);
    }
  }

  lemma {:induction false} FreePdesOthers(m: Memory, d: nat, n: nat, d': nat, i': nat, j': nat)
    requires Inv(m) && d in m.dirs && n <= NUSER && d' in m.dirs && d' != d && i' < NUSER
    ensures Lookup(FreePdes(m, d, n), d', i', j') == Lookup(m, d', i', j')
  {
    hide Inv, FreeOneTable, Lookup;
    if n > 0 {
      FreePdesOthers(m, d, n - 1, d', i', j');
      FreeOneTableOthers(FreePdes(m, d, n - 1), d, n - 1, d', i', j');
    }
  }

  lemma EnvFreeOthers(m: Memory, d: nat, d': nat, i': nat, j': nat)
    requires Inv(m) && d in m.dirs && d' in m.dirs && d' != d && i' < NUSER
    ensures Lookup(EnvFree(m, d), d', i', j') == Lookup(m, d', i', j')
  {
    FreePdesOthers(m, d, NUSER, d', i', j');
    NoTablesLeft(m, d);
    DropDirInv(FreePdes(m, d, NUSER), d);
  }

  /** Every frame's count drops by exactly the references that address space held, and a
      frame ends up free exactly if it was free or was held by that space alone. */
  lemma EnvFreeRefs(m: Memory, d: nat, g: nat)
    requires Inv(m) && d in m.dirs
    ensures Refs(EnvFree(m, d), g) == set s | s in Refs(m, g) && s.d != d
  {
    EnvFreeCorrect(m, d);
    var r := EnvFree(m, d);
    hide EnvFree, Inv;
    forall s ensures s in Refs(r, g) <==> s in Refs(m, g) && s.d != d {
      InRefs(m, s, g);
      InRefs(r, s, g);
    }
  }

  lemma EnvFreeCounts(m: Memory, d: nat, g: nat)
    requires Inv(m) && d in m.dirs && g < |m.mem| && g !in m.reserved
    ensures
      var r := EnvFree(m, d);
      var own := set s | s in Refs(m, g) && s.d == d;
      && |r.refs| == |m.refs| && r.refs[g] == m.refs[g] - |own|
      && (g in r.free <==> g in m.free || (own != {} && own == Refs(m, g)))
  {
    EnvFreeCorrect(m, d);
    var r := EnvFree(m, d);
    EnvFreeRefs(m, d, g);
    hide EnvFree, Names, Refs, Structure;
    var own := set s | s in Refs(m, g) && s.d == d;
    assert Refs(m, g) == Refs(r, g) + own && Refs(r, g) !! own;
  }

  /** No leak over an env's life.  An env is set up, does anything with its own pages until
      nothing of its is in flight, and is freed: every counter, the set of free frames and
      every other address space are back to what they were. */
  lemma LifeRestores(m: Memory, base: Frame, ops: seq<Op>)
    requires Inv(m) && m.free != [] && m.free[0] < |m.mem|
    requires Inv(NewDir(m, base)) && Legal(NewDir(m, base), ops)
    requires forall k :: 0 <= k < |ops| ==> OnBehalfOf(ops[k], m.free[0])
    requires Run(NewDir(m, base), ops).flight == m.flight
    ensures m.free[0] in Run(NewDir(m, base), ops).dirs
    ensures
      var r := EnvFree(Run(NewDir(m, base), ops), m.free[0]);
      && Inv(r) && r.dirs == m.dirs && SameSpaces(m, r)
      && |r.refs| == |m.refs| && (forall g: nat :: g < |m.refs| && g !in m.reserved ==> r.refs[g] == m.refs[g])
      && (forall g: nat :: g in r.free <==> g in m.free)
  {
    var d := m.free[0];
    NewDirInv(m, base);
    var a := NewDir(m, base);
    RunOthersSame(a, ops, d);
    var b := Run(a, ops);
    EnvFreeCorrect(b, d);
    var r := EnvFree(b, d);
    forall d', i: nat, j: nat | d' in m.dirs && i < NUSER ensures Lookup(r, d', i, j) == Lookup(m, d', i, j) {
      EnvFreeOthers(b, d, d', i, j);
    }
    forall g: nat | g < |m.refs| && g !in m.reserved ensures r.refs[g] == m.refs[g] {
      forall s ensures Names(r, s, g) <==> Names(m, s, g) {
        assert Names(a, s, g) <==> Names(m, s, g) || (s == Dir(d) && g == d);
      }
      SameRefs(m, r, g);
    }
  }
}
