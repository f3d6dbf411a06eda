/** page_insert, page_remove and env_free as state transformers, with the theorems about
    whole address spaces, whole env lives and whole runs. */
module PageMap {
  import opened Pmap
  import opened PmapSteps

  /** A page below UTOP of a live directory. */
  ghost predicate UserPage(m: Memory, d: nat, i: nat, j: nat) {
    d in m.dirs && i < NUSER && j < NWORD
  }

  /** The frame can take one more reference before pp_ref wraps. */
  ghost predicate Room(m: Memory, f: nat) {
    |Refs(m, f)| + 1 < REF_MOD
  }

  /** The frames and which of them boot took never change. */
  ghost predicate SameLayout(m: Memory, r: Memory) {
    |r.mem| == |m.mem| && r.reserved == m.reserved
  }

  /** Result of an operation that may run out of frames. */
  datatype Outcome = Done(m: Memory) | NoMem(m: Memory)

  // ---------------------------------------------------------------------------
  // page_remove

  function PageRemove(m: Memory, d: nat, i: nat, j: nat): (r: Memory)
    requires Inv(m) && UserPage(m, d, i, j)
  {
    if Lookup(m, d, i, j).Valid() then
      UnmapInv(m, d, i, j);
      Unmap(m, d, i, j)
    else m
  }

  /** Exactly one page is dropped, and exactly its reference. */
  lemma PageRemoveCorrect(m: Memory, d: nat, i: nat, j: nat)
    requires Inv(m) && UserPage(m, d, i, j)
    ensures Inv(PageRemove(m, d, i, j))
    ensures PageRemove(m, d, i, j).dirs == m.dirs && PageRemove(m, d, i, j).flight == m.flight
    ensures SameLayout(m, PageRemove(m, d, i, j))
    ensures !Lookup(PageRemove(m, d, i, j), d, i, j).Valid()
    ensures forall d', i': nat, j': nat :: d' in m.dirs && i' < NUSER && (d', i', j') != (d, i, j) ==>
              Lookup(PageRemove(m, d, i, j), d', i', j') == Lookup(m, d', i', j')
    ensures forall s, g: nat :: Names(PageRemove(m, d, i, j), s, g) <==> Names(m, s, g) && s != Pte(d, i, j)
  {
    if Lookup(m, d, i, j).Valid() {
      UnmapInv(m, d, i, j);
    }
  }

  /** The same, one slot or page at a time. */
  lemma PageRemoveAt(m: Memory, d: nat, i: nat, j: nat, s: Slot, g: nat)
    requires Inv(m) && UserPage(m, d, i, j)
    ensures PageRemove(m, d, i, j).flight == m.flight
    ensures Names(PageRemove(m, d, i, j), s, g) <==> Names(m, s, g) && s != Pte(d, i, j)
  {
    PageRemoveCorrect(m, d, i, j);
  }

  lemma PageRemoveOther(m: Memory, d: nat, i: nat, j: nat, d': nat, i': nat, j': nat)
    requires Inv(m) && UserPage(m, d, i, j) && d' in m.dirs && i' < NUSER && (d', i', j') != (d, i, j)
    ensures Lookup(PageRemove(m, d, i, j), d', i', j') == Lookup(m, d', i', j')
  {
    PageRemoveCorrect(m, d, i, j);
  }

  // ---------------------------------------------------------------------------
  // page_insert

  function PageInsert(m: Memory, d: nat, i: nat, j: nat, f: nat, perm: set<Flag>): (r: Outcome)
    requires Inv(m) && UserPage(m, d, i, j) && f < |m.mem|
  {
    var e := Lookup(m, d, i, j);
    if e.Valid() && e.ppn == f then
      RemapInv(m, d, i, j, perm);
      Done(Remap(m, d, i, j, perm))
    else
      PageRemoveCorrect(m, d, i, j);
      var a := PageRemove(m, d, i, j);
      if !HasTable(a, d, i) && a.free == [] then
        NoMem(a)
      else
        TableReady(m, d, i, j);
        Done(Map(WithTable(a, d, i), d, i, j, f, perm))
  }

  /** pgdir_walk with create set, when it cannot fail. */
  function WithTable(m: Memory, d: nat, i: nat): (r: Memory)
    requires Inv(m) && d in m.dirs && i < NUSER && (HasTable(m, d, i) || m.free != [])
    ensures HasTable(r, d, i)
  {
    if HasTable(m, d, i) then m
    else
      NewTableInv(m, d, i);
      NewTable(m, d, i)
  }

  /** Dropping the old page and making the table leave the page empty and its table there. */
  lemma TableReady(m: Memory, d: nat, i: nat, j: nat)
    requires Inv(m) && UserPage(m, d, i, j)
    requires
      var a := PageRemove(m, d, i, j);
      Inv(a) && a.dirs == m.dirs && (HasTable(a, d, i) || a.free != [])
    ensures
      var w := WithTable(PageRemove(m, d, i, j), d, i);
      && Inv(w) && w.dirs == m.dirs && w.flight == m.flight && SameLayout(m, w) && |w.refs| == |m.mem|
      && !Lookup(w, d, i, j).Valid() && SameSpaces(PageRemove(m, d, i, j), w)
  {
    var a := PageRemove(m, d, i, j);
    PageRemoveCorrect(m, d, i, j);
    if !HasTable(a, d, i) { NewTableInv(a, d, i); }
  }

  /** Dropping another page leaves a frame insertable. */
  lemma StillInsertable(m: Memory, d: nat, i: nat, j: nat, f: nat)
    requires Inv(m) && UserPage(m, d, i, j) && Insertable(m, f) && Room(m, f)
    requires Lookup(m, d, i, j).Valid() ==> Lookup(m, d, i, j).ppn != f
    ensures
      var a := PageRemove(m, d, i, j);
      Inv(a) && Insertable(a, f) && Room(a, f) && !Lookup(a, d, i, j).Valid()
  {
    var a := PageRemove(m, d, i, j);
    PageRemoveCorrect(m, d, i, j);
    forall t ensures Names(a, t, f) <==> Names(m, t, f) {}
    SameRefs(m, a, f);
    if f !in m.flight {
      var s: Slot :| s.Pte? && Names(m, s, f);
      assert Names(a, s, f);
    }
  }

  /** Dropping the old page and making the table leave the new page insertable. */
  lemma InsertReady(m: Memory, d: nat, i: nat, j: nat, f: nat)
    requires Inv(m) && UserPage(m, d, i, j) && Insertable(m, f) && Room(m, f)
    requires Lookup(m, d, i, j).Valid() ==> Lookup(m, d, i, j).ppn != f
    requires
      var a := PageRemove(m, d, i, j);
      Inv(a) && a.dirs == m.dirs && (HasTable(a, d, i) || a.free != [])
    ensures
      var w := WithTable(PageRemove(m, d, i, j), d, i);
      && Inv(w) && w.dirs == m.dirs && w.flight == m.flight && SameLayout(m, w) && f < |w.refs|
      && !Lookup(w, d, i, j).Valid() && Insertable(w, f) && Room(w, f)
      && SameSpaces(PageRemove(m, d, i, j), w)
  {
    var a := PageRemove(m, d, i, j);
    PageRemoveCorrect(m, d, i, j);
    StillInsertable(m, d, i, j, f);
    InsertableFacts(a, f);
    if !HasTable(a, d, i) {
      NewTableInv(a, d, i);
      var w := WithTable(a, d, i);
      GainRefs(a, w, Pde(d, i), a.free[0], f);
      assert a.free[0] in a.free;
      if f !in a.flight {
        var s: Slot :| s.Pte? && Names(a, s, f);
        assert Names(w, s, f);
      }
    }
  }

  /** page_insert against the flat map: success changes the translation of exactly one page
      of one directory; failure, which needs a missing table and an empty free list,
      changes nothing at all. */
  lemma PageInsertCorrect(m: Memory, d: nat, i: nat, j: nat, f: nat, perm: set<Flag>)
    requires Inv(m) && UserPage(m, d, i, j) && Insertable(m, f) && Room(m, f)
    ensures
      var r := PageInsert(m, d, i, j, f, perm);
      && Inv(r.m) && r.m.dirs == m.dirs && SameLayout(m, r.m)
      && (r.Done? <==> HasTable(m, d, i) || m.free != [])
      && (r.Done? ==> OnePageChanged(m, r.m, d, i, j, Entry(f, perm + {CACHEABLE, V})) && r.m.flight == m.flight - {f})
      && (r.NoMem? ==> r.m == m)
  {
    var e := Lookup(m, d, i, j);
    if e.Valid() && e.ppn == f {
      RemapInv(m, d, i, j, perm);
      assert Names(m, Pte(d, i, j), f);
      Referenced(m, Pte(d, i, j), f);
    } else {
      PageRemoveCorrect(m, d, i, j);
      var a := PageRemove(m, d, i, j);
      if e.Valid() { UnmapInv(m, d, i, j); }
      if HasTable(a, d, i) || a.free != [] {
        InsertReady(m, d, i, j, f);
        MapInv(WithTable(a, d, i), d, i, j, f, perm);
      }
    }
  }

  /** The references after a successful page_insert: the page's slot names f, the directory
      entry of a table that had to be made names the frame that was first on the free list,
      and every other slot names what it named. */
  lemma PageInsertNames(m: Memory, d: nat, i: nat, j: nat, f: nat, perm: set<Flag>, s: Slot, g: nat)
    requires Inv(m) && UserPage(m, d, i, j) && Insertable(m, f) && Room(m, f)
    requires PageInsert(m, d, i, j, f, perm).Done?
    ensures HasTable(m, d, i) || m.free != []
    ensures Names(PageInsert(m, d, i, j, f, perm).m, s, g) <==>
            if s == Pte(d, i, j) then g == f
            else if s == Pde(d, i) && !HasTable(m, d, i) then g == m.free[0]
            else Names(m, s, g)
  {
    var e := Lookup(m, d, i, j);
    if e.Valid() && e.ppn == f {
      RemapInv(m, d, i, j, perm);
    } else {
      PageRemoveCorrect(m, d, i, j);
      var a := PageRemove(m, d, i, j);
      if e.Valid() { UnmapInv(m, d, i, j); }
      InsertReady(m, d, i, j, f);
      var w := WithTable(a, d, i);
      if !HasTable(a, d, i) { NewTableInv(a, d, i); }
      MapInv(w, d, i, j, f, perm);
      assert !Names(a, Pte(d, i, j), g);
    }
  }

  // ---------------------------------------------------------------------------
  // What a caller of page_insert has to guarantee, exactly

  /** Writing an empty entry keeps the invariant if and only if the frame is in flight or
      already mapped: a frame that was freed meanwhile, a table or a directory is not. */
  lemma MapKeepsInvIff(m: Memory, d: nat, i: nat, j: nat, f: nat, perm: set<Flag>)
    requires Inv(m) && UserPage(m, d, i, j) && HasTable(m, d, i) && !Lookup(m, d, i, j).Valid()
    requires f < |m.mem| && Room(m, f)
    ensures Inv(Map(m, d, i, j, f, perm)) <==> Insertable(m, f)
  {
    if Insertable(m, f) {
      MapInv(m, d, i, j, f, perm);
    } else {
      var r := Map(m, d, i, j, f, perm);
      MapGains(m, d, i, j, f, perm);
      if f !in m.reserved {
        if m.refs[f] == 0 {
          assert f in r.free && r.refs[f] == 1;
        } else {
          var s :| s in Refs(m, f);
          InRefs(m, s, f);
          assert Names(r, s, f) && Names(r, Pte(d, i, j), f);
        }
      }
    }
  }

  /** Dropping the old page and making the table leave the frame room for one more reference, and
      make no frame insertable that was not. */
  lemma ReadyRoom(m: Memory, d: nat, i: nat, j: nat, f: nat)
    requires Inv(m) && UserPage(m, d, i, j) && f < |m.mem| && Room(m, f)
    requires Lookup(m, d, i, j).Valid() ==> Lookup(m, d, i, j).ppn != f
    requires
      var a := PageRemove(m, d, i, j);
      Inv(a) && a.dirs == m.dirs && (HasTable(a, d, i) || a.free != [])
    ensures
      var w := WithTable(PageRemove(m, d, i, j), d, i);
      Room(w, f) && (Insertable(w, f) ==> Insertable(m, f))
  {
    var a := PageRemove(m, d, i, j);
    PageRemoveCorrect(m, d, i, j);
    var w := WithTable(a, d, i);
    forall t ensures Names(a, t, f) <==> Names(m, t, f) {}
    SameRefs(m, a, f);
    if !HasTable(a, d, i) {
      NewTableInv(a, d, i);
      assert a.free[0] in a.free;
      Unreferenced(a, a.free[0]);
      GainRefs(a, w, Pde(d, i), a.free[0], f);
    }
  }

  /** The whole of page_insert, whatever the page held, with or without a table to make: it keeps
      the invariant if and only if the frame is in flight or already mapped, or the call fails
      before it maps anything.  The frame of a table that has to be made may be the very frame. */
  lemma InsertKeepsInvIff(m: Memory, d: nat, i: nat, j: nat, f: nat, perm: set<Flag>)
    requires Inv(m) && UserPage(m, d, i, j) && f < |m.mem| && Room(m, f)
    ensures Inv(PageInsert(m, d, i, j, f, perm).m) <==> Insertable(m, f) || (!HasTable(m, d, i) && m.free == [])
  {
    var e := Lookup(m, d, i, j);
    if Insertable(m, f) {
      PageInsertCorrect(m, d, i, j, f, perm);
    } else {
      assert !Names(m, Pte(d, i, j), f);
      PageRemoveCorrect(m, d, i, j);
      var a := PageRemove(m, d, i, j);
      if e.Valid() { UnmapInv(m, d, i, j); }
      if HasTable(a, d, i) || a.free != [] {
        TableReady(m, d, i, j);
        ReadyRoom(m, d, i, j, f);
        MapKeepsInvIff(WithTable(a, d, i), d, i, j, f, perm);
      }
    }
  }

  /** The interleaving behind it: one CPU looks a frame up for sys_mem_map, another removes
      its last mapping, and the first then inserts it, wherever. */
  lemma LookupRemoveInsertBreaks(m: Memory, d: nat, i: nat, j: nat, d': nat, i': nat, j': nat, perm: set<Flag>)
    requires Inv(m) && UserPage(m, d, i, j) && UserPage(m, d', i', j')
    requires Lookup(m, d, i, j).Valid() && |Refs(m, Lookup(m, d, i, j).ppn)| == 1
    ensures
      var a, f := PageRemove(m, d, i, j), Lookup(m, d, i, j).ppn;
      Inv(a) && UserPage(a, d', i', j') && f < |a.mem| && !Inv(PageInsert(a, d', i', j', f, perm).m)
  {
    var f := Lookup(m, d, i, j).ppn;
    var a := PageRemove(m, d, i, j);
    PageRemoveCorrect(m, d, i, j);
    UnmapInv(m, d, i, j);
    GainRefs(a, m, Pte(d, i, j), f, f);
    assert Names(m, Pte(d, i, j), f);
    Referenced(m, Pte(d, i, j), f);
    assert a.refs[f] == 0;
    Unreferenced(a, f);
    assert |Refs(a, f)| == 0 && f in a.free;
    InsertKeepsInvIff(a, d', i', j', f, perm);
  }

  // ---------------------------------------------------------------------------
  // sys_mem_alloc

  /** page_alloc followed by page_insert. */
  function SysMemAlloc(m: Memory, d: nat, i: nat, j: nat, perm: set<Flag>): (r: Outcome)
    requires Inv(m) && UserPage(m, d, i, j)
  {
    if m.free == [] then NoMem(m)
    else
      PageAllocInv(m);
      FreshIsInsertable(m);
      PageInsert(PageAlloc(m), d, i, j, m.free[0], perm)
  }

  lemma FreshIsInsertable(m: Memory)
    requires Inv(m) && m.free != []
    ensures m.free[0] < |m.mem| && m.free[0] !in m.flight
    ensures Insertable(PageAlloc(m), m.free[0]) && Room(PageAlloc(m), m.free[0])
  {
    PageAllocInv(m);
    var a := PageAlloc(m);
    assert a.refs[m.free[0]] == 0;
    assert |Refs(a, m.free[0])| == 0;
  }

  /** The call maps one new page, at the address it was given and with the permissions it was
      given, on the frame that was first on the free list, and that frame reads as zeros; every
      other page of every address space is as it was.  On failure all are. */
  lemma SysMemAllocCorrect(m: Memory, d: nat, i: nat, j: nat, perm: set<Flag>)
    requires Inv(m) && UserPage(m, d, i, j)
    ensures
      var r := SysMemAlloc(m, d, i, j, perm);
      && (r.Done? ==>
            && m.free != [] && OnePageChanged(m, r.m, d, i, j, Entry(m.free[0], perm + {CACHEABLE, V}))
            && m.free[0] < |r.m.mem| && forall k :: 0 <= k < NWORD ==> r.m.mem[m.free[0]][k] == ZERO)
      && (r.NoMem? ==> SameSpaces(m, r.m))
  {
    if m.free != [] {
      PageAllocInv(m);
      FreshIsInsertable(m);
      var a, f := PageAlloc(m), m.free[0];
      PageInsertCorrect(a, d, i, j, f, perm);
      if PageInsert(a, d, i, j, f, perm).Done? { InsertKeepsFrame(a, d, i, j, f, perm); }
    }
  }

  /** Inserting a frame does not write it. */
  lemma InsertKeepsFrame(m: Memory, d: nat, i: nat, j: nat, f: nat, perm: set<Flag>)
    requires Inv(m) && UserPage(m, d, i, j) && Insertable(m, f) && Room(m, f)
    requires PageInsert(m, d, i, j, f, perm).Done?
    ensures f < |m.mem| && f < |PageInsert(m, d, i, j, f, perm).m.mem|
    ensures PageInsert(m, d, i, j, f, perm).m.mem[f] == m.mem[f]
  {
    InsertableFacts(m, f);
    var e := Lookup(m, d, i, j);
    if HasTable(m, d, i) { assert Names(m, Pde(d, i), Table(m, d, i)); }
    assert Names(m, Dir(d), d);
    if !(e.Valid() && e.ppn == f) {
      PageRemoveCorrect(m, d, i, j);
      var a := PageRemove(m, d, i, j);
      if e.Valid() { UnmapInv(m, d, i, j); }
      assert a.mem[f] == m.mem[f];
      TableReady(m, d, i, j);
      InsertReady(m, d, i, j, f);
      var w := WithTable(a, d, i);
      InsertableFacts(w, f);
      assert w.mem[f] == m.mem[f] by {
        if !HasTable(a, d, i) {
          NewTableInv(a, d, i);
          StillInsertable(m, d, i, j, f);
          InsertableFacts(a, f);
          assert a.free[0] in a.free;
        }
      }
      assert Names(w, Pde(d, i), Table(w, d, i));
    }
  }

  /** The call leaves no frame stranded, except in one situation: the table is missing and
      exactly one frame is free.  Then page_alloc takes the last frame, page_insert fails
      for want of a table, and the frame is neither free nor mapped. */
  lemma SysMemAllocLeakIff(m: Memory, d: nat, i: nat, j: nat, perm: set<Flag>)
    requires Inv(m) && UserPage(m, d, i, j)
    ensures
      var r := SysMemAlloc(m, d, i, j, perm);
      && Inv(r.m) && r.m.dirs == m.dirs
      && (r.m.flight == m.flight <==> !(|m.free| == 1 && !HasTable(m, d, i)))
      && (|m.free| == 1 && !HasTable(m, d, i) ==>
            r.NoMem? && r.m.flight == m.flight + {m.free[0]} && r.m.free == [] && SameSpaces(m, r.m))
      && (r.Done? <==> |m.free| >= 2 || (|m.free| == 1 && HasTable(m, d, i)))
      && (r.NoMem? ==> SameSpaces(m, r.m))
  {
    if m.free != [] {
      PageAllocInv(m);
      FreshIsInsertable(m);
      var a := PageAlloc(m);
      PageInsertCorrect(a, d, i, j, m.free[0], perm);
      assert Names(m, Dir(d), d);
      Referenced(m, Dir(d), d);
      assert a.mem[d] == m.mem[d];
      assert a.flight - {m.free[0]} == m.flight;
    }
  }

  // ---------------------------------------------------------------------------
  // env_free

  /** The inner loop of env_free: pages 0..n of table i are removed. */
  function FreePtes(m: Memory, d: nat, i: nat, n: nat): (r: Memory)
    requires Inv(m) && d in m.dirs && i < NUSER && n <= NWORD
    ensures Inv(r) && r.dirs == m.dirs && SameLayout(m, r)
  {
    if n == 0 then m
    else
      var p := FreePtes(m, d, i, n - 1);
      PageRemoveCorrect(p, d, i, n - 1);
      PageRemove(p, d, i, n - 1)
  }

  lemma FreePtesNext(m: Memory, d: nat, i: nat, n: nat)
    requires Inv(m) && d in m.dirs && i < NUSER && n < NWORD
    ensures FreePtes(m, d, i, n + 1) == PageRemove(FreePtes(m, d, i, n), d, i, n)
    ensures !Lookup(FreePtes(m, d, i, n), d, i, n).Valid() ==> FreePtes(m, d, i, n + 1) == FreePtes(m, d, i, n)
  {
    hide Inv;
  }

  /** Slot s is a page of table i, among the first n. */
  ghost predicate PteBelow(s: Slot, d: nat, i: nat, n: nat) {
    s.Pte? && s.d == d && s.i == i && s.j < n
  }

  lemma {:induction false} FreePtesCorrect(m: Memory, d: nat, i: nat, n: nat, s: Slot, g: nat)
    requires Inv(m) && d in m.dirs && i < NUSER && n <= NWORD
    ensures FreePtes(m, d, i, n).flight == m.flight
    ensures Names(FreePtes(m, d, i, n), s, g) <==> Names(m, s, g) && !PteBelow(s, d, i, n)
  {
    hide Inv, PageRemove, Names;
    if n > 0 {
      FreePtesCorrect(m, d, i, n - 1, s, g);
      PageRemoveAt(FreePtes(m, d, i, n - 1), d, i, n - 1, s, g);
    }
  }

  lemma FreePtesEmpties(m: Memory, d: nat, i: nat)
    requires Inv(m) && d in m.dirs && i < NUSER && HasTable(m, d, i)
    ensures
      var p := FreePtes(m, d, i, NWORD);
      && HasTable(p, d, i) && Table(p, d, i) == Table(m, d, i)
      && forall j: nat :: j < NWORD ==> !Lookup(p, d, i, j).Valid()
  {
    var p := FreePtes(m, d, i, NWORD);
    assert Names(m, Pde(d, i), Table(m, d, i));
    FreePtesCorrect(m, d, i, NWORD, Pde(d, i), Table(m, d, i));
    forall j: nat | j < NWORD ensures !Lookup(p, d, i, j).Valid() {
      FreePtesCorrect(m, d, i, NWORD, Pte(d, i, j), Lookup(p, d, i, j).ppn);
    }
  }

  /** One turn of the outer loop: table i, if there is one, is emptied and given back. */
  function FreeOneTable(m: Memory, d: nat, i: nat): (r: Memory)
    requires Inv(m) && d in m.dirs && i < NUSER
    ensures Inv(r) && r.dirs == m.dirs && SameLayout(m, r)
  {
    if HasTable(m, d, i) then
      FreePtesEmpties(m, d, i);
      DropTableInv(FreePtes(m, d, i, NWORD), d, i);
      DropTable(FreePtes(m, d, i, NWORD), d, i)
    else m
  }

  lemma FreeOneTableCorrect(m: Memory, d: nat, i: nat, s: Slot, g: nat)
    requires Inv(m) && d in m.dirs && i < NUSER
    ensures FreeOneTable(m, d, i).flight == m.flight
    ensures Names(FreeOneTable(m, d, i), s, g) <==> Names(m, s, g) && !(!s.Dir? && s.d == d && s.i == i)
  {
    if HasTable(m, d, i) {
      var q := FreePtes(m, d, i, NWORD);
      FreePtesEmpties(m, d, i);
      FreePtesCorrect(m, d, i, NWORD, s, g);
      DropTableInv(q, d, i);
      DropTableNames(q, d, i, s, g);
    }
  }

  /** The outer loop: tables 0..n emptied and given back. */
  function FreePdes(m: Memory, d: nat, n: nat): (r: Memory)
    requires Inv(m) && d in m.dirs && n <= NUSER
    ensures Inv(r) && r.dirs == m.dirs && SameLayout(m, r)
  {
    if n == 0 then m else FreeOneTable(FreePdes(m, d, n - 1), d, n - 1)
  }

  /** Slot s is one of the first n directory entries, or a page under it. */
  ghost predicate UnderPde(s: Slot, d: nat, n: nat) {
    !s.Dir? && s.d == d && s.i < n
  }

  lemma {:induction false} FreePdesCorrect(m: Memory, d: nat, n: nat, s: Slot, g: nat)
    requires Inv(m) && d in m.dirs && n <= NUSER
    ensures FreePdes(m, d, n).flight == m.flight
    ensures Names(FreePdes(m, d, n), s, g) <==> Names(m, s, g) && !UnderPde(s, d, n)
  {
    hide Inv, FreeOneTable, Names;
    if n > 0 {
      FreePdesCorrect(m, d, n - 1, s, g);
      FreeOneTableCorrect(FreePdes(m, d, n - 1), d, n - 1, s, g);
    }
  }

  /** env_free, the memory part. */
  function EnvFree(m: Memory, d: nat): (r: Memory)
    requires Inv(m) && d in m.dirs
  {
    var p := FreePdes(m, d, NUSER);
    NoTablesLeft(m, d);
    DropDirInv(p, d);
    DropDir(p, d)
  }

  lemma NoTablesLeft(m: Memory, d: nat)
    requires Inv(m) && d in m.dirs
    ensures forall i: nat :: i < NUSER ==> !HasTable(FreePdes(m, d, NUSER), d, i)
  {
    var p := FreePdes(m, d, NUSER);
    forall i: nat | i < NUSER ensures !HasTable(p, d, i) {
      var t := if HasTable(p, d, i) then Table(p, d, i) else 0;
      FreePdesCorrect(m, d, NUSER, Pde(d, i), t);
    }
  }

  /** Exactly the references of that address space are gone. */
  lemma EnvFreeCorrect(m: Memory, d: nat)
    requires Inv(m) && d in m.dirs
    ensures Inv(EnvFree(m, d))
    ensures EnvFree(m, d).dirs == m.dirs - {d} && EnvFree(m, d).flight == m.flight
    ensures SameLayout(m, EnvFree(m, d))
    ensures forall s, g: nat :: Names(EnvFree(m, d), s, g) <==> Names(m, s, g) && s.d != d
  {
    var p := FreePdes(m, d, NUSER);
    NoTablesLeft(m, d);
    DropDirInv(p, d);
    FreePdesCorrect(m, d, NUSER, Dir(d), d);
    forall s, g: nat ensures Names(EnvFree(m, d), s, g) <==> Names(m, s, g) && s.d != d {
      FreePdesCorrect(m, d, NUSER, s, g);
      assert Names(p, s, g) <==> Names(EnvFree(m, d), s, g) || (s == Dir(d) && g == d);
    }
  }
}
