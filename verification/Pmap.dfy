/** Physical frames and two-level page tables (kern/pmap.c, and the address-space part
    of kern/env.c), as values.

    Page tables live in the very frames the allocator hands out, so a frame is 1024
    raw words and nothing in the state says what a frame is used for.  What does say it
    is reachability: a reference to a frame is a slot (a live page directory, a user
    directory entry, or a user table entry), and `Names` reads the raw words to tell
    which frame a slot names.  `Inv` is what every step keeps. */
module Pmap {
  import opened Queue

  /** Words per frame, and the first directory entry that is not user space (PDX(UTOP)). */
  const NWORD: nat := 1024
  const NUSER: nat := 509

  /** pp_ref is a u_short. */
  const REF_MOD: nat := 65536

  datatype Flag = G | V | D | CACHEABLE | COW | LIBRARY | DIRTY

  /** A page-table word: the frame number in the high 20 bits, flag bits below. */
  datatype Entry = Entry(ppn: nat, flags: set<Flag>) {
    predicate Valid() { V in flags }
  }

  const ZERO: Entry := Entry(0, {})

  type Frame = w: seq<Entry> | |w| == NWORD witness seq(NWORD, _ => ZERO)

  /** The contents of a frame after memset. */
  function Zeroed(): (w: Frame)
    ensures forall k :: 0 <= k < NWORD ==> w[k] == ZERO
  {
    seq(NWORD, _ => ZERO)
  }

  /** refs, free and mem are pp_ref, page_free_list and the contents of memory.  dirs,
      flight and reserved are bookkeeping: the live page directories, the frames that
      page_alloc returned and nothing references yet, and the frames taken at boot. */
  datatype Memory = Memory(refs: seq<nat>, free: seq<nat>, mem: seq<Frame>,
                           dirs: set<nat>, flight: set<nat>, reserved: set<nat>)

  /** The places a reference to a frame can be. */
  datatype Slot = Dir(d: nat) | Pde(d: nat, i: nat) | Pte(d: nat, i: nat, j: nat)

  // ---------------------------------------------------------------------------
  // Reading the tables

  predicate HasTable(m: Memory, d: nat, i: nat) {
    d < |m.mem| && i < NWORD && m.mem[d][i].Valid() && m.mem[d][i].ppn < |m.mem|
  }

  function Table(m: Memory, d: nat, i: nat): (r: nat)
    requires HasTable(m, d, i)
  {
    m.mem[d][i].ppn
  }

  /** What a walk of directory d finds for page (i, j); an absent table reads as zero. */
  function Lookup(m: Memory, d: nat, i: nat, j: nat): (r: Entry) {
    if HasTable(m, d, i) && j < NWORD then m.mem[Table(m, d, i)][j] else ZERO
  }

  /** Slot s is in use and refers to frame f. */
  ghost predicate Names(m: Memory, s: Slot, f: nat) {
    s.d in m.dirs &&
    match s
    case Dir(d) => d == f
    case Pde(d, i) => i < NUSER && HasTable(m, d, i) && Table(m, d, i) == f
    case Pte(d, i, j) => i < NUSER && j < NWORD && Lookup(m, d, i, j).Valid() && Lookup(m, d, i, j).ppn == f
  }

  ghost function AllSlots(dirs: set<nat>): (r: set<Slot>) {
    (set d | d in dirs :: Dir(d))
    + (set d, i: nat | d in dirs && i < NUSER :: Pde(d, i))
    + (set d, i: nat, j: nat | d in dirs && i < NUSER && j < NWORD :: Pte(d, i, j))
  }

  /** The references to frame f. */
  ghost function Refs(m: Memory, f: nat): (r: set<Slot>) {
    set s | s in AllSlots(m.dirs) && Names(m, s, f)
  }

  lemma InRefs(m: Memory, s: Slot, f: nat)
    ensures s in Refs(m, f) <==> Names(m, s, f)
  {
  }

  // ---------------------------------------------------------------------------
  // The invariant

  /** Live directories are frames, and their user entries point at frames. */
  ghost predicate DirsInMemory(m: Memory) {
    && (forall d :: d in m.dirs ==> d < |m.mem|)
    && (forall d, i: nat :: d in m.dirs && i < NUSER && m.mem[d][i].Valid() ==> m.mem[d][i].ppn < |m.mem|)
  }

  /** Frames are what their slots make of them: a directory or a table has exactly one
      reference, so no table is shared by two entries or mapped as user data. */
  ghost predicate Structure(m: Memory) {
    && |m.refs| == |m.mem|
    && DirsInMemory(m)
    && (forall s, f: nat :: Names(m, s, f) ==> f < |m.mem| && f !in m.reserved)
    && (forall s, t, f: nat :: Names(m, s, f) && Names(m, t, f) && !s.Pte? ==> s == t)
  }

  /** pp_ref counts references; the free list holds, once each, the unreferenced frames
      that are not in flight. */
  ghost predicate Counts(m: Memory)
    requires |m.refs| == |m.mem|
  {
    && (forall f: nat :: f < |m.mem| && f !in m.reserved ==> m.refs[f] == |Refs(m, f)| < REF_MOD)
    && Distinct(m.free)
    && (forall f: nat :: f in m.free <==> f < |m.mem| && f !in m.reserved && f !in m.flight && m.refs[f] == 0)
    && (forall f :: f in m.flight ==> f < |m.mem| && f !in m.reserved && m.refs[f] == 0)
  }

  ghost predicate Inv(m: Memory) {
    Structure(m) && Counts(m)
  }

  /** A frame whose count is zero is named by nothing. */
  lemma Unreferenced(m: Memory, f: nat)
    requires Inv(m) && f < |m.mem| && f !in m.reserved && m.refs[f] == 0
    ensures forall s :: !Names(m, s, f)
  {
    forall s ensures !Names(m, s, f) {
      InRefs(m, s, f);
    }
  }

  lemma Referenced(m: Memory, s: Slot, f: nat)
    requires Inv(m) && Names(m, s, f)
    ensures f < |m.mem| && f !in m.reserved && m.refs[f] > 0 && f !in m.free && f !in m.flight
  {
    InRefs(m, s, f);
    assert Refs(m, f) != {};
  }

  // ---------------------------------------------------------------------------
  // Steps

  function SetWord(m: Memory, f: nat, k: nat, e: Entry): (r: Memory)
    requires f < |m.mem| && k < NWORD
  {
    m.(mem := m.mem[f := m.mem[f][k := e]])
  }

  /** page_alloc_nolock: first of the free list, zeroed. */
  function PageAlloc(m: Memory): (r: Memory)
    requires m.free != [] && m.free[0] < |m.mem|
  {
    m.(free := m.free[1..], mem := m.mem[m.free[0] := Zeroed()], flight := m.flight + {m.free[0]})
  }

  /** `pp->pp_ref++` in a u_short. */
  function Incref(m: Memory, f: nat): (r: Memory)
    requires f < |m.refs|
  {
    m.(refs := m.refs[f := (m.refs[f] + 1) % REF_MOD], flight := m.flight - {f})
  }

  /** page_decref: at zero the frame goes to the front of the free list. */
  function Decref(m: Memory, f: nat): (r: Memory)
    requires f < |m.refs| && m.refs[f] > 0
  {
    m.(refs := m.refs[f := m.refs[f] - 1], free := if m.refs[f] == 1 then [f] + m.free else m.free)
  }

  /** `page2pa(pp) | perm | PTE_C_CACHEABLE | PTE_V`. */
  function Made(f: nat, perm: set<Flag>): (e: Entry)
    ensures e.Valid() && e.ppn == f
  {
    Entry(f, perm + {CACHEABLE, V})
  }

  /** The page of (i, j) is dropped: count down, entry cleared. */
  function Unmap(m: Memory, d: nat, i: nat, j: nat): (r: Memory)
    requires HasTable(m, d, i) && j < NWORD
    requires Lookup(m, d, i, j).ppn < |m.refs| && m.refs[Lookup(m, d, i, j).ppn] > 0
  {
    SetWord(Decref(m, Lookup(m, d, i, j).ppn), Table(m, d, i), j, ZERO)
  }

  /** The create branch of pgdir_walk. */
  function NewTable(m: Memory, d: nat, i: nat): (r: Memory)
    requires |m.refs| == |m.mem| && m.free != [] && m.free[0] < |m.mem| && d < |m.mem| && i < NWORD
  {
    Incref(SetWord(PageAlloc(m), d, i, Made(m.free[0], {})), m.free[0])
  }

  /** The entry is written and its frame counted. */
  function Map(m: Memory, d: nat, i: nat, j: nat, f: nat, perm: set<Flag>): (r: Memory)
    requires HasTable(m, d, i) && j < NWORD && f < |m.refs|
  {
    Incref(SetWord(m, Table(m, d, i), j, Made(f, perm)), f)
  }

  // ---------------------------------------------------------------------------
  // What each step does to the references

  /** r agrees with m on every slot but s, which names f in r and nothing in m. */
  ghost predicate Gains(m: Memory, r: Memory, s: Slot, f: nat) {
    && Names(r, s, f)
    && (forall g: nat :: !Names(m, s, g))
    && (forall t, g: nat :: Names(r, t, g) <==> Names(m, t, g) || (t == s && g == f))
  }

  /** The references to every frame after a gain, and hence the counts. */
  lemma GainRefs(m: Memory, r: Memory, s: Slot, f: nat, g: nat)
    requires Gains(m, r, s, f)
    ensures Refs(r, g) == if g == f then Refs(m, g) + {s} else Refs(m, g)
    ensures s !in Refs(m, g)
  {
    forall t ensures t in Refs(r, g) <==> t in Refs(m, g) || (t == s && g == f) {
      InRefs(m, t, g);
      InRefs(r, t, g);
    }
    InRefs(m, s, g);
  }

  /** Same references, same count of each frame. */
  lemma SameRefs(m: Memory, r: Memory, g: nat)
    requires forall t :: Names(r, t, g) <==> Names(m, t, g)
    ensures Refs(r, g) == Refs(m, g)
  {
    forall t ensures t in Refs(r, g) <==> t in Refs(m, g) {
      InRefs(m, t, g);
      InRefs(r, t, g);
    }
  }

  /** Page (i, j) of directory d reads the same in both states. */
  ghost predicate SameAt(m: Memory, r: Memory, d: nat, i: nat, j: nat) {
    HasTable(r, d, i) == HasTable(m, d, i) && Lookup(r, d, i, j) == Lookup(m, d, i, j)
  }

  /** Overwriting a frame no Dir or Pde slot names leaves every walk as it was. */
  lemma OverwriteKeepsWalks(m: Memory, r: Memory, f: nat)
    requires Structure(m) && r.dirs == m.dirs && |r.mem| == |m.mem| && f < |m.mem|
    requires forall s :: Names(m, s, f) ==> s.Pte?
    requires forall g: nat :: g < |m.mem| && g != f ==> r.mem[g] == m.mem[g]
    ensures forall d, i: nat, j: nat :: d in m.dirs && i < NUSER ==> SameAt(m, r, d, i, j)
    ensures forall s, g: nat :: Names(r, s, g) <==> Names(m, s, g)
  {
    forall d, i: nat, j: nat | d in m.dirs && i < NUSER ensures SameAt(m, r, d, i, j) {
      assert Names(m, Dir(d), d);
      if HasTable(m, d, i) { assert Names(m, Pde(d, i), Table(m, d, i)); }
    }
    forall s, g: nat ensures Names(r, s, g) <==> Names(m, s, g) {
      match s
      case Dir(d) =>
      case Pde(d, i) =>
        if d in m.dirs && i < NUSER {
          assert SameAt(m, r, d, i, 0);
          if HasTable(m, d, i) { assert Names(m, Dir(d), d); }
        }
      case Pte(d, i, j) => if d in m.dirs && i < NUSER { assert SameAt(m, r, d, i, j); }
    }
  }

  /** Storing a word in the table of (d, i) changes page (i, j) of d and no other page of
      any directory. */
  lemma SetPteWalks(m: Memory, d: nat, i: nat, j: nat, e: Entry)
    requires Structure(m) && d in m.dirs && i < NUSER && HasTable(m, d, i) && j < NWORD
    ensures
      var r := SetWord(m, Table(m, d, i), j, e);
      && HasTable(r, d, i) && Table(r, d, i) == Table(m, d, i) && Lookup(r, d, i, j) == e
      && DirsInMemory(r)
      && (forall d', i': nat, j': nat :: d' in m.dirs && i' < NUSER && (d', i', j') != (d, i, j) ==>
            SameAt(m, r, d', i', j'))
  {
    var t := Table(m, d, i);
    var r := SetWord(m, t, j, e);
    assert Names(m, Pde(d, i), t);
    forall d', i': nat, j': nat | d' in m.dirs && i' < NUSER
      ensures HasTable(r, d', i') == HasTable(m, d', i')
      ensures (d', i', j') != (d, i, j) ==> SameAt(m, r, d', i', j')
    {
      assert Names(m, Dir(d'), d');
      if HasTable(m, d', i') { assert Names(m, Pde(d', i'), Table(m, d', i')); }
    }
    forall d' | d' in m.dirs ensures r.mem[d'] == m.mem[d'] {
      assert Names(m, Dir(d'), d');
    }
  }

  /** The same for references: only slot Pte(d, i, j) can change what it names. */
  lemma SetPteNames(m: Memory, d: nat, i: nat, j: nat, e: Entry, s: Slot, g: nat)
    requires Structure(m) && d in m.dirs && i < NUSER && HasTable(m, d, i) && j < NWORD
    ensures
      var r := SetWord(m, Table(m, d, i), j, e);
      Names(r, s, g) <==> if s == Pte(d, i, j) then e.Valid() && e.ppn == g else Names(m, s, g)
  {
    var r := SetWord(m, Table(m, d, i), j, e);
    SetPteWalks(m, d, i, j, e);
    assert Names(m, Pde(d, i), Table(m, d, i));
    match s
    case Dir(_) =>
    case Pde(d', i') =>
      if d' in m.dirs && i' < NUSER {
        assert Names(m, Dir(d'), d');
        assert r.mem[d'] == m.mem[d'];
      }
    case Pte(d', i', j') =>
      if d' in m.dirs && i' < NUSER && s != Pte(d, i, j) { assert SameAt(m, r, d', i', j'); }
  }

  /** Structure after one new reference. */
  lemma GainStructure(m: Memory, r: Memory, s: Slot, f: nat)
    requires Structure(m) && Gains(m, r, s, f)
    requires |r.refs| == |r.mem| == |m.mem| && r.reserved == m.reserved && f < |m.mem| && f !in m.reserved
    requires DirsInMemory(r)
    requires forall t :: Names(m, t, f) ==> s.Pte? && t.Pte?
    ensures Structure(r)
  {
  }

  /** Structure after one reference went away. */
  lemma LoseStructure(m: Memory, r: Memory, s: Slot, f: nat)
    requires Structure(m) && Gains(r, m, s, f)
    requires |r.refs| == |r.mem| == |m.mem| && r.reserved == m.reserved
    requires DirsInMemory(r)
    ensures Structure(r)
  {
  }

  /** Counts after one new reference to a frame that is not free. */
  lemma GainCounts(m: Memory, r: Memory, s: Slot, f: nat)
    requires Inv(m) && Gains(m, r, s, f) && |r.mem| == |m.mem| && r.reserved == m.reserved
    requires f < |m.mem| && f !in m.reserved && f !in m.free && m.refs[f] + 1 < REF_MOD
    requires r.refs == m.refs[f := m.refs[f] + 1] && r.free == m.free && r.flight == m.flight - {f}
    ensures Counts(r)
  {
    forall g: nat | g < |m.mem| && g !in m.reserved ensures r.refs[g] == |Refs(r, g)| < REF_MOD {
      GainRefs(m, r, s, f, g);
    }
  }

  /** Counts after one reference went away: the last one frees the frame. */
  lemma LoseCounts(m: Memory, r: Memory, s: Slot, f: nat)
    requires Inv(m) && Gains(r, m, s, f) && |r.mem| == |m.mem| && r.reserved == m.reserved
    requires f < |m.mem| && f !in m.reserved && m.refs[f] > 0
    requires r.refs == m.refs[f := m.refs[f] - 1] && r.flight == m.flight
    requires r.free == if m.refs[f] == 1 then [f] + m.free else m.free
    ensures Counts(r)
  {
    forall g: nat | g < |m.mem| && g !in m.reserved ensures r.refs[g] == |Refs(r, g)| < REF_MOD {
      GainRefs(r, m, s, f, g);
    }
    assert f !in m.free && f !in m.flight;
  }

  // ---------------------------------------------------------------------------
  // Every step keeps the invariant, and what it does to the address spaces

  /** No page of any directory of m reads differently in r. */
  ghost predicate SameSpaces(m: Memory, r: Memory) {
    forall d, i: nat, j: nat :: d in m.dirs && i < NUSER ==> Lookup(r, d, i, j) == Lookup(m, d, i, j)
  }

  /** Page (i, j) of d reads e, and no other page of any directory reads differently. */
  ghost predicate OnePageChanged(m: Memory, r: Memory, d: nat, i: nat, j: nat, e: Entry) {
    && r.dirs == m.dirs
    && Lookup(r, d, i, j) == e
    && (forall d', i': nat, j': nat :: d' in m.dirs && i' < NUSER && (d', i', j') != (d, i, j) ==>
          Lookup(r, d', i', j') == Lookup(m, d', i', j'))
  }

  lemma PageAllocInv(m: Memory)
    requires Inv(m) && m.free != []
    ensures m.free[0] in m.free && m.free[0] < |m.mem|
    ensures Inv(PageAlloc(m)) && SameSpaces(m, PageAlloc(m))
    ensures forall s, g: nat :: Names(PageAlloc(m), s, g) <==> Names(m, s, g)
  {
    var f := m.free[0];
    assert f in m.free;
    var r := PageAlloc(m);
    Unreferenced(m, f);
    OverwriteKeepsWalks(m, r, f);
    assert SameSpaces(m, r) by {
      forall d, i: nat, j: nat | d in m.dirs && i < NUSER ensures Lookup(r, d, i, j) == Lookup(m, d, i, j) {
        assert SameAt(m, r, d, i, j);
      }
    }
    assert forall d :: d in m.dirs ==> Names(m, Dir(d), d);
    assert Structure(r);
    forall g: nat | g < |m.mem| && g !in m.reserved ensures r.refs[g] == |Refs(r, g)| < REF_MOD {
      SameRefs(m, r, g);
    }
    forall g: nat ensures g in r.free <==> g in m.free && g != f {
      assert m.free == [f] + r.free;
    }
  }

  /** A frame a caller may insert: fresh from page_alloc, or found mapped by page_lookup. */
  ghost predicate Insertable(m: Memory, f: nat) {
    f in m.flight || exists s: Slot :: s.Pte? && Names(m, s, f)
  }

  lemma InsertableFacts(m: Memory, f: nat)
    requires Inv(m) && Insertable(m, f)
    ensures f < |m.mem| && f !in m.reserved && f !in m.free
    ensures forall t :: Names(m, t, f) ==> t.Pte?
  {
    if f in m.flight {
      Unreferenced(m, f);
    } else {
      var s: Slot :| s.Pte? && Names(m, s, f);
      Referenced(m, s, f);
    }
  }

  lemma UnmapInv(m: Memory, d: nat, i: nat, j: nat)
    requires Inv(m) && d in m.dirs && i < NUSER && j < NWORD && Lookup(m, d, i, j).Valid()
    ensures HasTable(m, d, i)
    ensures Lookup(m, d, i, j).ppn < |m.refs| && m.refs[Lookup(m, d, i, j).ppn] > 0
    ensures Inv(Unmap(m, d, i, j))
    ensures Gains(Unmap(m, d, i, j), m, Pte(d, i, j), Lookup(m, d, i, j).ppn)
    ensures HasTable(Unmap(m, d, i, j), d, i) && Table(Unmap(m, d, i, j), d, i) == Table(m, d, i)
    ensures OnePageChanged(m, Unmap(m, d, i, j), d, i, j, ZERO)
  {
    var f := Lookup(m, d, i, j).ppn;
    var s := Pte(d, i, j);
    assert Names(m, s, f);
    Referenced(m, s, f);
    var r := Unmap(m, d, i, j);
    var c := SetWord(m, Table(m, d, i), j, ZERO);
    SetPteWalks(m, d, i, j, ZERO);
    forall t, g: nat ensures Names(r, t, g) <==> Names(c, t, g) {
      Reframe(c, r, t, g);
    }
    forall t, g: nat ensures Names(m, t, g) <==> Names(r, t, g) || (t == s && g == f) {
      SetPteNames(m, d, i, j, ZERO, t, g);
    }
    assert !Names(r, s, f) by { SetPteNames(m, d, i, j, ZERO, s, f); }
    forall g: nat ensures !Names(r, s, g) {
      SetPteNames(m, d, i, j, ZERO, s, g);
    }
    assert Gains(r, m, s, f);
    LoseStructure(m, r, s, f);
    LoseCounts(m, r, s, f);
    forall d', i': nat, j': nat | d' in m.dirs && i' < NUSER && (d', i', j') != (d, i, j)
      ensures Lookup(r, d', i', j') == Lookup(m, d', i', j')
    {
      assert SameAt(m, c, d', i', j');
    }
  }

  /** Names depends on memory and the live directories only. */
  lemma Reframe(c: Memory, r: Memory, t: Slot, g: nat)
    requires c.mem == r.mem && c.dirs == r.dirs
    ensures Names(r, t, g) <==> Names(c, t, g)
  {
  }

  lemma MapGains(m: Memory, d: nat, i: nat, j: nat, f: nat, perm: set<Flag>)
    requires Structure(m) && d in m.dirs && i < NUSER && j < NWORD && HasTable(m, d, i)
    requires !Lookup(m, d, i, j).Valid() && f < |m.refs|
    ensures Gains(m, Map(m, d, i, j, f, perm), Pte(d, i, j), f)
    ensures OnePageChanged(m, Map(m, d, i, j, f, perm), d, i, j, Made(f, perm))
  {
    var s := Pte(d, i, j);
    var e := Made(f, perm);
    var r := Map(m, d, i, j, f, perm);
    var c := SetWord(m, Table(m, d, i), j, e);
    forall t, g: nat ensures Names(r, t, g) <==> Names(m, t, g) || (t == s && g == f) {
      Reframe(c, r, t, g);
      SetPteNames(m, d, i, j, e, t, g);
    }
    SetPteWalks(m, d, i, j, e);
    forall d', i': nat, j': nat | d' in m.dirs && i' < NUSER && (d', i', j') != (d, i, j)
      ensures Lookup(r, d', i', j') == Lookup(m, d', i', j')
    {
      assert SameAt(m, c, d', i', j');
    }
  }

  lemma MapInv(m: Memory, d: nat, i: nat, j: nat, f: nat, perm: set<Flag>)
    requires Inv(m) && d in m.dirs && i < NUSER && j < NWORD && HasTable(m, d, i)
    requires !Lookup(m, d, i, j).Valid()
    requires Insertable(m, f) && |Refs(m, f)| + 1 < REF_MOD
    ensures f < |m.refs|
    ensures Inv(Map(m, d, i, j, f, perm))
    ensures Gains(m, Map(m, d, i, j, f, perm), Pte(d, i, j), f)
    ensures OnePageChanged(m, Map(m, d, i, j, f, perm), d, i, j, Entry(f, perm + {CACHEABLE, V}))
  {
    InsertableFacts(m, f);
    MapGains(m, d, i, j, f, perm);
    var r := Map(m, d, i, j, f, perm);
    assert DirsInMemory(r) by { SetPteWalks(m, d, i, j, Made(f, perm)); }
    GainStructure(m, r, Pte(d, i, j), f);
    GainCounts(m, r, Pte(d, i, j), f);
  }
}
