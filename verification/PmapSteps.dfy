/** The remaining primitive steps on frames and tables, each with what it does to the
    references and to the address spaces. */
module PmapSteps {
  import opened Pmap

  /** page_insert over the same frame: only the permissions change. */
  function Remap(m: Memory, d: nat, i: nat, j: nat, perm: set<Flag>): (r: Memory)
    requires HasTable(m, d, i) && j < NWORD
  {
    SetWord(m, Table(m, d, i), j, Made(Lookup(m, d, i, j).ppn, perm))
  }

  /** Same references everywhere, same counters: the invariant carries over. */
  lemma SameNamesInv(m: Memory, r: Memory)
    requires Inv(m) && DirsInMemory(r)
    requires |r.mem| == |m.mem| && r.refs == m.refs && r.free == m.free
    requires r.flight == m.flight && r.reserved == m.reserved
    requires forall s, g: nat :: Names(r, s, g) <==> Names(m, s, g)
    ensures Inv(r)
  {
    forall g: nat | g < |m.mem| && g !in m.reserved ensures r.refs[g] == |Refs(r, g)| < REF_MOD {
      SameRefs(m, r, g);
    }
  }

  lemma RemapInv(m: Memory, d: nat, i: nat, j: nat, perm: set<Flag>)
    requires Inv(m) && d in m.dirs && i < NUSER && j < NWORD && Lookup(m, d, i, j).Valid()
    ensures HasTable(m, d, i)
    ensures Inv(Remap(m, d, i, j, perm))
    ensures forall s, g: nat :: Names(Remap(m, d, i, j, perm), s, g) <==> Names(m, s, g)
    ensures OnePageChanged(m, Remap(m, d, i, j, perm), d, i, j, Entry(Lookup(m, d, i, j).ppn, perm + {CACHEABLE, V}))
  {
    var e := Made(Lookup(m, d, i, j).ppn, perm);
    var r := Remap(m, d, i, j, perm);
    forall s, g: nat ensures Names(r, s, g) <==> Names(m, s, g) {
      SetPteNames(m, d, i, j, e, s, g);
    }
    SetPteWalks(m, d, i, j, e);
    forall d', i': nat, j': nat | d' in m.dirs && i' < NUSER && (d', i', j') != (d, i, j)
      ensures Lookup(r, d', i', j') == Lookup(m, d', i', j')
    {
      assert SameAt(m, r, d', i', j');
    }
    SameNamesInv(m, r);
  }

  /** A directory entry now points at a zeroed frame nothing else names. */
  lemma LinkTableNames(m: Memory, d: nat, i: nat, f: nat, s: Slot, g: nat)
    requires Inv(m) && d in m.dirs && i < NUSER && !HasTable(m, d, i)
    requires f in m.flight && m.mem[f] == Zeroed()
    ensures
      var r := SetWord(m, d, i, Made(f, {}));
      Names(r, s, g) <==> Names(m, s, g) || (s == Pde(d, i) && g == f)
  {
    Unreferenced(m, f);
    var r := SetWord(m, d, i, Made(f, {}));
    assert Names(m, Dir(d), d);
    if s.d in m.dirs {
      assert Names(m, Dir(s.d), s.d);
      if !s.Dir? && HasTable(m, s.d, s.i) && s.i < NUSER {
        assert Names(m, Pde(s.d, s.i), Table(m, s.d, s.i));
      }
    }
  }

  lemma LinkTableWalks(m: Memory, d: nat, i: nat, f: nat)
    requires Inv(m) && d in m.dirs && i < NUSER && !HasTable(m, d, i)
    requires f in m.flight && m.mem[f] == Zeroed()
    ensures
      var r := SetWord(m, d, i, Made(f, {}));
      DirsInMemory(r) && SameSpaces(m, r) && HasTable(r, d, i)
  {
    Unreferenced(m, f);
    var r := SetWord(m, d, i, Made(f, {}));
    assert Names(m, Dir(d), d);
    forall d', i': nat, j': nat | d' in m.dirs && i' < NUSER
      ensures Lookup(r, d', i', j') == Lookup(m, d', i', j')
    {
      assert Names(m, Dir(d'), d');
      if HasTable(m, d', i') { assert Names(m, Pde(d', i'), Table(m, d', i')); }
    }
  }

  /** The new table as a change to the state after page_alloc. */
  lemma NewTableGains(m: Memory, d: nat, i: nat)
    requires Inv(m) && d in m.dirs && i < NUSER && !HasTable(m, d, i) && m.free != []
    ensures m.free[0] < |m.mem| && m.free[0] in m.free
    ensures
      var a, r := PageAlloc(m), NewTable(m, d, i);
      Gains(a, r, Pde(d, i), m.free[0]) && DirsInMemory(r) && HasTable(r, d, i) && SameSpaces(a, r)
  {
    var f := m.free[0];
    PageAllocInv(m);
    var a, r := PageAlloc(m), NewTable(m, d, i);
    assert Names(m, Dir(d), d);
    assert f != d by { Referenced(m, Dir(d), d); }
    assert !HasTable(a, d, i);
    hide Inv;
    LinkTableWalks(a, d, i, f);
    forall t, g: nat ensures Names(r, t, g) <==> Names(a, t, g) || (t == Pde(d, i) && g == f) {
      LinkTableNames(a, d, i, f, t, g);
      Reframe(SetWord(a, d, i, Made(f, {})), r, t, g);
    }
  }

  /** A table created on demand names one new frame and changes no translation. */
  lemma NewTableInv(m: Memory, d: nat, i: nat)
    requires Inv(m) && d in m.dirs && i < NUSER && !HasTable(m, d, i) && m.free != []
    ensures m.free[0] < |m.mem| && m.free[0] !in m.flight
    ensures Inv(NewTable(m, d, i))
    ensures Gains(m, NewTable(m, d, i), Pde(d, i), m.free[0])
    ensures HasTable(NewTable(m, d, i), d, i) && SameSpaces(m, NewTable(m, d, i))
    ensures NewTable(m, d, i).dirs == m.dirs && NewTable(m, d, i).flight == m.flight
  {
    PageAllocInv(m);
    var f, a, r := m.free[0], PageAlloc(m), NewTable(m, d, i);
    NewTableGains(m, d, i);
    Unreferenced(a, f);
    hide Names, Lookup, HasTable, Refs;
    GainStructure(a, r, Pde(d, i), f);
    GainCounts(a, r, Pde(d, i), f);
  }

  /** The words pgdir_walk writes: the entry of the new table, and the table itself. */
  lemma NewTableWords(m: Memory, d: nat, i: nat)
    requires Inv(m) && d in m.dirs && i < NUSER && !HasTable(m, d, i) && m.free != []
    ensures m.free[0] < |m.mem| == |m.refs| && d < |m.mem|
    ensures NewTable(m, d, i).mem[d][i] == Entry(m.free[0], {CACHEABLE, V})
    ensures forall j :: 0 <= j < NWORD ==> NewTable(m, d, i).mem[m.free[0]][j] == ZERO
  {
    PageAllocInv(m);
    assert Names(m, Dir(d), d);
    Referenced(m, Dir(d), d);
  }

  /** The directory of a new env: zero below UTOP, the template above, itself at UVPT. */
  function DirFrame(d: nat, base: Frame): (w: Frame)
    ensures forall i :: 0 <= i < NUSER ==> w[i] == ZERO
  {
    Zeroed()[509 := base[509]][510 := base[510]][511 := Entry(d, {V})]
  }

  /** env_setup_vm. */
  function NewDir(m: Memory, base: Frame): (r: Memory)
    requires |m.refs| == |m.mem| && m.free != [] && m.free[0] < |m.mem|
  {
    var d := m.free[0];
    var a := PageAlloc(m);
    Incref(a.(mem := a.mem[d := DirFrame(d, base)], dirs := a.dirs + {d}), d)
  }

  /** The words of a new directory: the template's in [UTOP, UVPT), itself at UVPT, and no other. */
  lemma NewDirWords(m: Memory, base: Frame, k: nat)
    requires Inv(m) && m.free != [] && k < NWORD
    ensures m.free[0] < |m.mem| == |m.refs|
    ensures var w := NewDir(m, base).mem[m.free[0]][k];
            if k == 509 || k == 510 then w == base[k] else if k == 511 then w == Entry(m.free[0], {V}) else w == ZERO
  {
    PageAllocInv(m);
  }

  lemma NewDirInv(m: Memory, base: Frame)
    requires Inv(m) && m.free != []
    ensures m.free[0] < |m.mem| && m.free[0] !in m.dirs
    ensures Inv(NewDir(m, base))
    ensures Gains(m, NewDir(m, base), Dir(m.free[0]), m.free[0])
    ensures SameSpaces(m, NewDir(m, base)) && NewDir(m, base).dirs == m.dirs + {m.free[0]}
    ensures NewDir(m, base).flight == m.flight
    ensures forall i: nat :: i < NUSER ==> !HasTable(NewDir(m, base), m.free[0], i)
  {
    var d := m.free[0];
    PageAllocInv(m);
    var a := PageAlloc(m);
    Unreferenced(a, d);
    assert !Names(a, Dir(d), d);
    var r := NewDir(m, base);
    var o := a.(mem := a.mem[d := DirFrame(d, base)]);
    OverwriteKeepsWalks(a, o, d);
    forall t, g: nat ensures Names(r, t, g) <==> Names(a, t, g) || (t == Dir(d) && g == d) {
      assert Names(o, t, g) <==> Names(a, t, g);
      if t.d == d && !t.Dir? && t.i < NUSER { assert !HasTable(r, d, t.i); }
    }
    forall d', i: nat, j: nat | d' in m.dirs && i < NUSER ensures Lookup(r, d', i, j) == Lookup(m, d', i, j) {
      assert SameAt(a, o, d', i, j);
    }
    assert DirsInMemory(r) by {
      forall d' | d' in a.dirs ensures r.mem[d'] == a.mem[d'] {}
    }
    assert Gains(a, r, Dir(d), d);
    GainStructure(a, r, Dir(d), d);
    GainCounts(a, r, Dir(d), d);
  }

  /** env_free giving back an emptied table. */
  function DropTable(m: Memory, d: nat, i: nat): (r: Memory)
    requires HasTable(m, d, i) && |m.refs| == |m.mem| && m.refs[Table(m, d, i)] > 0
  {
    Decref(SetWord(m, d, i, ZERO), Table(m, d, i))
  }

  lemma DropTableInv(m: Memory, d: nat, i: nat)
    requires Inv(m) && d in m.dirs && i < NUSER && HasTable(m, d, i)
    requires forall j: nat :: j < NWORD ==> !Lookup(m, d, i, j).Valid()
    ensures m.refs[Table(m, d, i)] > 0
    ensures Inv(DropTable(m, d, i))
    ensures Gains(DropTable(m, d, i), m, Pde(d, i), Table(m, d, i))
    ensures DropTable(m, d, i).dirs == m.dirs && DropTable(m, d, i).flight == m.flight
    ensures !HasTable(DropTable(m, d, i), d, i)
    ensures forall d', i': nat, j': nat :: d' in m.dirs && i' < NUSER && (d', i') != (d, i) ==>
              Lookup(DropTable(m, d, i), d', i', j') == Lookup(m, d', i', j')
  {
    var f := Table(m, d, i);
    assert Names(m, Pde(d, i), f);
    Referenced(m, Pde(d, i), f);
    forall d', i': nat, j': nat | d' in m.dirs && i' < NUSER && (d', i') != (d, i)
      ensures Lookup(DropTable(m, d, i), d', i', j') == Lookup(m, d', i', j')
    {
      DropTableLookup(m, d, i, d', i', j');
    }
    var r := DropTable(m, d, i);
    forall t, g: nat ensures Names(m, t, g) <==> Names(r, t, g) || (t == Pde(d, i) && g == f) {
      DropTableNames(m, d, i, t, g);
    }
    forall g: nat ensures !Names(r, Pde(d, i), g) {
      DropTableNames(m, d, i, Pde(d, i), g);
    }
    assert Gains(r, m, Pde(d, i), f);
    LoseStructure(m, r, Pde(d, i), f);
    LoseCounts(m, r, Pde(d, i), f);
  }

  /** A page under another directory entry reads the same. */
  lemma DropTableLookup(m: Memory, d: nat, i: nat, d': nat, i': nat, j': nat)
    requires Inv(m) && d in m.dirs && i < NUSER && HasTable(m, d, i) && m.refs[Table(m, d, i)] > 0
    requires d' in m.dirs && i' < NUSER && (d', i') != (d, i)
    ensures Lookup(DropTable(m, d, i), d', i', j') == Lookup(m, d', i', j')
  {
    var r := DropTable(m, d, i);
    assert r.mem == m.mem[d := m.mem[d][i := ZERO]];
    assert r.mem[d'][i'] == m.mem[d'][i'];
    if HasTable(m, d', i') {
      var t := Table(m, d', i');
      assert Names(m, Pde(d', i'), t) && Names(m, Dir(d), d);
      assert t != d;
      assert r.mem[t] == m.mem[t];
    }
  }

  lemma DropTableNames(m: Memory, d: nat, i: nat, t: Slot, g: nat)
    requires Inv(m) && d in m.dirs && i < NUSER && HasTable(m, d, i) && m.refs[Table(m, d, i)] > 0
    requires forall j: nat :: j < NWORD ==> !Lookup(m, d, i, j).Valid()
    ensures Names(DropTable(m, d, i), t, g) <==> Names(m, t, g) && t != Pde(d, i)
  {
    assert Names(m, Dir(d), d);
    if t.d in m.dirs {
      assert Names(m, Dir(t.d), t.d);
      if !t.Dir? && HasTable(m, t.d, t.i) && t.i < NUSER {
        assert Names(m, Pde(t.d, t.i), Table(m, t.d, t.i));
      }
    }
  }

  /** env_free giving back the directory itself. */
  function DropDir(m: Memory, d: nat): (r: Memory)
    requires d < |m.refs| && m.refs[d] > 0
  {
    Decref(m.(dirs := m.dirs - {d}), d)
  }

  lemma DropDirInv(m: Memory, d: nat)
    requires Inv(m) && d in m.dirs
    requires forall i: nat :: i < NUSER ==> !HasTable(m, d, i)
    ensures d < |m.refs| && m.refs[d] > 0
    ensures Inv(DropDir(m, d))
    ensures Gains(DropDir(m, d), m, Dir(d), d)
    ensures DropDir(m, d).mem == m.mem && DropDir(m, d).dirs == m.dirs - {d} && DropDir(m, d).flight == m.flight
  {
    assert Names(m, Dir(d), d);
    Referenced(m, Dir(d), d);
    var r := DropDir(m, d);
    forall t, g: nat ensures Names(m, t, g) <==> Names(r, t, g) || (t == Dir(d) && g == d) {
      if t.d == d && !t.Dir? && t.i < NUSER { assert !HasTable(m, d, t.i); }
    }
    assert Gains(r, m, Dir(d), d);
    LoseStructure(m, r, Dir(d), d);
    LoseCounts(m, r, Dir(d), d);
  }

  /** A user store into a mapped page, or kernel code filling a page in flight. */
  lemma StoreInv(m: Memory, f: nat, k: nat, e: Entry)
    requires Inv(m) && Insertable(m, f) && k < NWORD
    ensures f < |m.mem|
    ensures Inv(SetWord(m, f, k, e)) && SameSpaces(m, SetWord(m, f, k, e))
    ensures forall s, g: nat :: Names(SetWord(m, f, k, e), s, g) <==> Names(m, s, g)
  {
    InsertableFacts(m, f);
    var r := SetWord(m, f, k, e);
    OverwriteKeepsWalks(m, r, f);
    forall d | d in m.dirs ensures r.mem[d] == m.mem[d] {
      assert Names(m, Dir(d), d);
    }
    forall d, i: nat, j: nat | d in m.dirs && i < NUSER ensures Lookup(r, d, i, j) == Lookup(m, d, i, j) {
      assert SameAt(m, r, d, i, j);
    }
    SameNamesInv(m, r);
  }
}
