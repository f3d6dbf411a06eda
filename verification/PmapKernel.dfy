/** kern/pmap.c and the address-space half of kern/env.c as the imperative code they are:
    one object whose fields are pp_ref, page_free_list and physical memory, each method
    proved to compute the state transformer of the same name. */
module PmapKernel {
  import opened Queue
  import opened Pmap
  import opened PmapSteps
  import opened PageMap
  import opened PmapRuns

  const UTOP: nat := 0x7f40_0000

  function PDX(va: nat): (i: nat) { va / 0x40_0000 }
  function PTX(va: nat): (j: nat) { va / 0x1000 % 1024 }

  /** `(pdeno << PDSHIFT) | (pteno << PGSHIFT)`. */
  function VaOf(i: nat, j: nat): (va: nat) { i * 0x40_0000 + j * 0x1000 }

  /** An address is its directory index, table index and offset, and they are its own. */
  lemma VaOfParts(i: nat, j: nat, o: nat)
    requires j < NWORD && o < 0x1000
    ensures PDX(VaOf(i, j) + o) == i && PTX(VaOf(i, j) + o) == j && (VaOf(i, j) + o) % 0x1000 == o
    ensures VaOf(i, j) + o < UTOP <==> i < NUSER
  {
    assert VaOf(i, j) + o == (i * 1024 + j) * 0x1000 + o;
    assert (VaOf(i, j) + o) / 0x1000 == i * 1024 + j;
  }

  lemma PartsOfVa(va: nat)
    ensures va == VaOf(PDX(va), PTX(va)) + va % 0x1000 && PTX(va) < NWORD
  {
    var q := va / 0x1000;
    assert va == q * 0x1000 + va % 0x1000;
    assert q == q / 1024 * 1024 + q % 1024;
    assert va / 0x40_0000 == q / 1024;
  }

  lemma UserVa(va: nat)
    requires va < UTOP
    ensures PDX(va) < NUSER && PTX(va) < NWORD
  {
  }

  /** What pgdir_walk stores through ppte, or its error. */
  datatype Walk = NoTable | TableAt(t: nat) | OutOfMemory

  class PhysicalMemory {
    var refs: seq<nat>
    var mem: seq<Frame>
    /** page_free_list, threaded through the pp_link fields of the Page structs. */
    const list: List
    ghost var dirs: set<nat>
    ghost var flight: set<nat>
    ghost var reserved: set<nat>

    ghost function State(): (m: Memory)
      reads this, list
    {
      Memory(refs, list.items, mem, dirs, flight, reserved)
    }

    ghost predicate Valid()
      reads this, list, list.next, list.prev
    {
      list.Valid() && list.next.Length == |mem| && Inv(State())
    }

    /** page_init: its two loops set every pp_ref and thread the free list. */
    constructor (boot: nat, contents: seq<Frame>)
      requires boot <= |contents|
      ensures State() == Boot(boot, contents) && Valid()
      ensures fresh(list) && fresh(list.next) && fresh(list.prev)
    {
      mem := contents;
      refs := seq(|contents|, _ => 0);
      list := new List(|contents|);
      dirs, flight, reserved := {}, {}, set f | f in Descending(0, boot);
      new;
      for i := 0 to boot
        invariant mem == contents && list.items == [] && |refs| == |contents|
        invariant list.Valid() && list.next.Length == |mem| && fresh(list.next) && fresh(list.prev)
        invariant dirs == {} && flight == {} && reserved == set f | f in Descending(0, boot)
        invariant forall k :: 0 <= k < i ==> refs[k] == 1
      {
        refs := refs[i := 1];
      }
      for i := boot to |contents|
        invariant mem == contents && list.items == Descending(boot, i) && |refs| == |contents|
        invariant list.Valid() && list.next.Length == |mem| && fresh(list.next) && fresh(list.prev)
        invariant dirs == {} && flight == {} && reserved == set f | f in Descending(0, boot)
        invariant forall k :: 0 <= k < boot ==> refs[k] == 1
        invariant forall k :: boot <= k < i ==> refs[k] == 0
      {
        refs := refs[i := 0];
        list.InsertHead(i);
      }
      BootInv(boot, contents);
    }

    /** LIST_FIRST and LIST_REMOVE. */
    method TakeFree() returns (pp: nat)
      requires list.Valid() && list.items != []
      modifies list, list.next, list.prev
      ensures list.Valid() && list.next == old(list.next) && list.prev == old(list.prev)
      ensures pp == old(list.items)[0] && list.items == old(list.items)[1..]
    {
      assert LinkedAt(list.next[..], list.prev[..], list.items, 0);
      pp := list.first.i;
      list.Remove(pp);
    }

    /** The arrays behind the free list are the same objects. */
    twostate predicate SameList()
      reads this, list
    {
      list.next == old(list.next) && list.prev == old(list.prev)
    }

    /** page_alloc: a zeroed frame, or failure when the free list is empty. */
    method PageAlloc() returns (ok: bool, pp: nat)
      requires Valid()
      modifies this, list, list.next, list.prev
      ensures Valid() && SameList()
      ensures ok <==> old(list.items) != []
      ensures ok ==> pp < |mem| && pp in flight && mem[pp] == Zeroed() && pp !in old(flight)
      ensures ok ==> State() == Apply(old(State()), Op.Alloc)
      ensures !ok ==> State() == old(State())
    {
      if list.first.Null? {
        return false, 0;
      }
      PageAllocInv(State());
      pp := TakeFree();
      mem := mem[pp := Zeroed()];
      flight := flight + {pp};
      ok := true;
    }

    /** page_decref: at zero the frame goes back to the free list. */
    method PageDecref(pp: nat)
      requires list.Valid() && pp < |refs| == list.next.Length && refs[pp] > 0 && pp !in list.items
      modifies this`refs, list, list.next, list.prev
      ensures list.Valid() && SameList()
      ensures State() == Decref(old(State()), pp)
    {
      refs := refs[pp := refs[pp] - 1];
      if refs[pp] == 0 {
        list.InsertHead(pp);
      }
    }

    /** pgdir_walk. */
    method PgdirWalk(pgdir: nat, i: nat, create: bool) returns (w: Walk)
      requires Valid() && pgdir in dirs && i < NUSER
      modifies this, list, list.next, list.prev
      ensures Valid() && SameList()
      ensures w.TableAt? ==> HasTable(State(), pgdir, i) && w.t == Table(State(), pgdir, i)
      ensures !create ==> State() == old(State()) && (w.TableAt? <==> HasTable(State(), pgdir, i)) && !w.OutOfMemory?
      ensures create ==> (w.TableAt? <==> HasTable(old(State()), pgdir, i) || old(list.items) != []) && !w.NoTable?
      ensures create && w.TableAt? ==> State() == WithTable(old(State()), pgdir, i)
      ensures create && w.OutOfMemory? ==> State() == old(State())
    {
      if !mem[pgdir][i].Valid() {
        if !create {
          return NoTable;
        }
        if list.first.Null? {
          return OutOfMemory;
        }
        NewTableInv(State(), pgdir, i);
        var pp := TakeFree();
        mem := mem[pp := Zeroed()];
        mem := mem[pgdir := mem[pgdir][i := Made(pp, {})]];
        refs := refs[pp := (refs[pp] + 1) % REF_MOD];
        flight := flight - {pp};
        assert State() == NewTable(old(State()), pgdir, i);
      }
      return TableAt(mem[pgdir][i].ppn);
    }

    /** page_lookup: the entry for va, if it is valid. */
    method PageLookup(pgdir: nat, va: nat) returns (found: bool, e: Entry)
      requires Valid() && pgdir in dirs && va < UTOP
      ensures e == Lookup(State(), pgdir, PDX(va), PTX(va))
      ensures found <==> e.Valid()
      ensures found ==> Insertable(State(), e.ppn)
    {
      UserVa(va);
      var i, j := PDX(va), PTX(va);
      if !mem[pgdir][i].Valid() {
        return false, ZERO;
      }
      e := mem[mem[pgdir][i].ppn][j];
      found := e.Valid();
      assert found ==> Names(State(), Pte(pgdir, i, j), e.ppn);
    }

    /** The end of page_remove, which page_insert has inlined: count down, clear the entry. */
    method UnmapPage(pgdir: nat, i: nat, j: nat)
      requires Valid() && UserPage(State(), pgdir, i, j) && Lookup(State(), pgdir, i, j).Valid()
      modifies this, list, list.next, list.prev
      ensures Valid() && SameList()
      ensures HasTable(old(State()), pgdir, i) && Lookup(old(State()), pgdir, i, j).ppn < |old(refs)|
      ensures old(refs)[Lookup(old(State()), pgdir, i, j).ppn] > 0
      ensures State() == Unmap(old(State()), pgdir, i, j)
    {
      UnmapInv(State(), pgdir, i, j);
      var t := mem[pgdir][i].ppn;
      PageDecref(mem[t][j].ppn);
      mem := mem[t := mem[t][j := ZERO]];
    }

    /** page_remove. */
    method PageRemove(pgdir: nat, va: nat)
      requires Valid() && pgdir in dirs && va < UTOP
      modifies this, list, list.next, list.prev
      ensures Valid() && SameList()
      ensures State() == PageMap.PageRemove(old(State()), pgdir, PDX(va), PTX(va))
    {
      UserVa(va);
      var found, e := PageLookup(pgdir, va);
      if found {
        UnmapPage(pgdir, PDX(va), PTX(va));
      }
    }

    /** page_insert, with the page_remove logic inlined as the source has it. */
    method PageInsert(pgdir: nat, pp: nat, va: nat, perm: set<Flag>) returns (ok: bool)
      requires Valid() && pgdir in dirs && va < UTOP && Insertable(State(), pp) && Room(State(), pp)
      modifies this, list, list.next, list.prev
      ensures Valid() && SameList()
      ensures
        var r := PageMap.PageInsert(old(State()), pgdir, PDX(va), PTX(va), pp, perm);
        State() == r.m && (ok <==> r.Done?)
    {
      UserVa(va);
      var i, j := PDX(va), PTX(va);
      ghost var m := State();
      PageInsertCorrect(m, pgdir, i, j, pp, perm);
      PageRemoveCorrect(m, pgdir, i, j);
      hide Inv, Names, Refs;
      var found, e := PageLookup(pgdir, va);
      if found {
        if e.ppn == pp {
          var t := mem[pgdir][i].ppn;
          mem := mem[t := mem[t][j := Made(pp, perm)]];
          return true;
        }
        UnmapPage(pgdir, i, j);
      }
      assert State() == PageMap.PageRemove(m, pgdir, i, j);
      StillInsertable(m, pgdir, i, j, pp);
      ok := EnterPage(pgdir, i, j, pp, perm);
    }

    /** The end of page_insert: get or make the table, write the entry and count the frame. */
    method EnterPage(pgdir: nat, i: nat, j: nat, pp: nat, perm: set<Flag>) returns (ok: bool)
      requires Valid() && UserPage(State(), pgdir, i, j) && !Lookup(State(), pgdir, i, j).Valid()
      requires Insertable(State(), pp) && Room(State(), pp)
      modifies this, list, list.next, list.prev
      ensures Valid() && SameList()
      ensures ok <==> HasTable(old(State()), pgdir, i) || old(list.items) != []
      ensures ok ==> pp < |WithTable(old(State()), pgdir, i).refs|
      ensures ok ==> State() == Map(WithTable(old(State()), pgdir, i), pgdir, i, j, pp, perm)
      ensures !ok ==> State() == old(State())
    {
      if HasTable(State(), pgdir, i) || list.items != [] {
        InsertReady(State(), pgdir, i, j, pp);
        MapInv(WithTable(State(), pgdir, i), pgdir, i, j, pp, perm);
      }
      hide Inv, Linked, Names, Refs, Insertable, Room;
      ghost var a := State();
      var w := PgdirWalk(pgdir, i, true);
      if w.OutOfMemory? {
        return false;
      }
      assert State() == WithTable(a, pgdir, i);
      hide WithTable, Map, HasTable, Lookup;
      WriteEntry(pgdir, i, j, pp, perm, w.t);
      ok := true;
    }

    /** Its last two stores. */
    method WriteEntry(ghost pgdir: nat, ghost i: nat, j: nat, pp: nat, perm: set<Flag>, t: nat)
      requires Valid() && HasTable(State(), pgdir, i) && t == Table(State(), pgdir, i) && j < NWORD && pp < |refs|
      requires Inv(Map(State(), pgdir, i, j, pp, perm))
      modifies this`mem, this`refs, this`flight
      ensures Valid() && State() == Map(old(State()), pgdir, i, j, pp, perm)
    {
      hide Inv, Linked;
      mem := mem[t := mem[t][j := Made(pp, perm)]];
      refs := refs[pp := (refs[pp] + 1) % REF_MOD];
      flight := flight - {pp};
    }

    /** env_setup_vm. */
    method EnvSetupVm(base: Frame) returns (ok: bool, pgdir: nat)
      requires Valid()
      modifies this, list, list.next, list.prev
      ensures Valid() && SameList()
      ensures ok <==> old(list.items) != []
      ensures ok ==> pgdir !in old(dirs) && dirs == old(dirs) + {pgdir} && flight == old(flight)
      ensures ok ==> State() == Apply(old(State()), Op.NewEnv(base)) && pgdir == old(list.items)[0]
      ensures !ok ==> State() == old(State())
    {
      if list.first.Null? {
        return false, 0;
      }
      ghost var m := State();
      NewDirInv(m, base);
      pgdir := TakeFree();
      mem := mem[pgdir := Zeroed()];
      refs := refs[pgdir := (refs[pgdir] + 1) % REF_MOD];
      var w: Frame := mem[pgdir];
      w := w[509 := base[509]];
      w := w[510 := base[510]];
      w := w[511 := Entry(pgdir, {V})];
      mem := mem[pgdir := w];
      dirs := dirs + {pgdir};
      assert State() == NewDir(m, base);
      ok := true;
    }

    /** env_free: the nested loops unmap every user page, then give back each table and the
        directory. */
    method EnvFree(pgdir: nat)
      requires Valid() && pgdir in dirs
      modifies this, list, list.next, list.prev
      ensures Valid() && SameList()
      ensures State() == PageMap.EnvFree(old(State()), pgdir)
    {
      ghost var m := State();
      for pdeno := 0 to NUSER
        invariant Valid() && SameList() && dirs == m.dirs
        invariant State() == FreePdes(m, pgdir, pdeno)
      {
        ghost var p := State();
        if mem[pgdir][pdeno].Valid() {
          FreeTable(pgdir, pdeno);
        }
        assert State() == FreeOneTable(p, pgdir, pdeno);
      }
      NoTablesLeft(m, pgdir);
      DropDirInv(State(), pgdir);
      PageDecref(pgdir);
      dirs := dirs - {pgdir};
      EnvFreeCorrect(m, pgdir);
    }

    /** The body of env_free's outer loop. */
    method FreeTable(pgdir: nat, pdeno: nat)
      requires Valid() && pgdir in dirs && pdeno < NUSER && HasTable(State(), pgdir, pdeno)
      modifies this, list, list.next, list.prev
      ensures Valid() && SameList()
      ensures State() == FreeOneTable(old(State()), pgdir, pdeno)
    {
      ghost var p := State();
      var t := mem[pgdir][pdeno].ppn;
      FreePages(pgdir, pdeno);
      FreePtesEmpties(p, pgdir, pdeno);
      DropTableInv(State(), pgdir, pdeno);
      assert t !in list.items;
      mem := mem[pgdir := mem[pgdir][pdeno := ZERO]];
      PageDecref(t);
    }

    /** Its inner loop. */
    method FreePages(pgdir: nat, pdeno: nat)
      requires Valid() && pgdir in dirs && pdeno < NUSER && HasTable(State(), pgdir, pdeno)
      modifies this, list, list.next, list.prev
      ensures Valid() && SameList()
      ensures State() == FreePtes(old(State()), pgdir, pdeno, NWORD)
    {
      ghost var p := State();
      var t := mem[pgdir][pdeno].ppn;
      hide Inv, Linked, FreePtes, HasTable, Lookup, PageMap.PageRemove;
      for pteno := 0 to NWORD
        invariant Valid() && SameList() && dirs == p.dirs
        invariant State() == FreePtes(p, pgdir, pdeno, pteno)
        invariant HasTable(State(), pgdir, pdeno) && Table(State(), pgdir, pdeno) == t
      {
        PageRemoveKeepsTable(State(), pgdir, pdeno, pteno);
        FreePtesNext(p, pgdir, pdeno, pteno);
        FreePage(pgdir, pdeno, pteno, t);
      }
    }

    method FreePage(pgdir: nat, pdeno: nat, pteno: nat, t: nat)
      requires Valid() && UserPage(State(), pgdir, pdeno, pteno) && HasTable(State(), pgdir, pdeno)
      requires t == Table(State(), pgdir, pdeno)
      modifies this, list, list.next, list.prev
      ensures Valid() && SameList()
      ensures State() == PageMap.PageRemove(old(State()), pgdir, pdeno, pteno)
    {
      hide Inv, Linked;
      VaOfParts(pdeno, pteno, 0);
      if mem[t][pteno].Valid() {
        PageRemove(pgdir, VaOf(pdeno, pteno));
      }
    }
  }

  lemma PageRemoveKeepsTable(m: Memory, d: nat, i: nat, j: nat)
    requires Inv(m) && UserPage(m, d, i, j) && HasTable(m, d, i)
    ensures
      var r := PageMap.PageRemove(m, d, i, j);
      Inv(r) && r.dirs == m.dirs && HasTable(r, d, i) && Table(r, d, i) == Table(m, d, i)
  {
    PageRemoveCorrect(m, d, i, j);
    assert Names(m, Pde(d, i), Table(m, d, i));
    PageRemoveAt(m, d, i, j, Pde(d, i), Table(m, d, i));
  }
}
