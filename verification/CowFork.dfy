/** What fork gives the child, in terms of page tables and memory alone: each page the loop passes
    becomes the child's with what it held for the parent at that moment, whatever other envs and
    the parent's own fault handler do in between. */
module CowFork {
  import opened Cow

  /** What a page of the parent is worth to the child: nothing, the very same entry if it is a
      LIBRARY page, or the frame without write permission and with the data it holds. */
  datatype Gift = Nothing | Same(q: Pte) | Copy(q: Pte, data: Data)

  ghost function Due(s: State, e: nat, v: nat): (g: Gift) {
    var a := Addr(e, v);
    if a !in s.pt || s.pt[a].frame !in s.mem then Nothing
    else if s.pt[a].lib then Same(s.pt[a])
    else Copy(Pte(s.pt[a].frame, false, s.pt[a].cow || s.pt[a].d, false), s.mem[s.pt[a].frame])
  }

  /** The env has it at page v. */
  ghost predicate Has(s: State, c: nat, v: nat, g: Gift) {
    var b := Addr(c, v);
    match g
    case Nothing => b !in s.pt
    case Same(q) => b in s.pt && s.pt[b] == q
    case Copy(q, data) => b in s.pt && s.pt[b] == q && Reads(s, b, data)
  }

  /** The entry is the same in both. */
  ghost predicate Kept(s: State, r: State, a: Addr) {
    (a in r.pt <==> a in s.pt) && (a in s.pt ==> r.pt[a] == s.pt[a])
  }

  /** The step takes the loop of e past a page. */
  ghost predicate Passes(s: State, x: Step, e: nat)
    requires Enabled(s, x)
  {
    && x.e == e && s.procs[e].fork.Forking? && e in Next(s, x).procs && Next(s, x).procs[e].fork.Forking?
    && Next(s, x).procs[e].fork.next == s.procs[e].fork.next + 1
  }

  // ---------------------------------------------------------------------------
  // Passing a page

  /** The child has what was due, the parent's page reads as before and is not writable unless it
      is a LIBRARY page, and no other page changes. */
  ghost predicate Given(s: State, r: State, e: nat)
    requires e in s.procs && s.procs[e].fork.Forking?
  {
    var k := s.procs[e].fork;
    && Has(r, k.child, k.next, Due(s, e, k.next)) && Has(r, e, k.next, Due(s, e, k.next))
    && e in r.procs && r.procs[e].fork == Forking(k.child, k.next + 1, false) && r.mem == s.mem
    && (forall a :: a != Addr(e, k.next) && a != Addr(k.child, k.next) ==> Kept(s, r, a))
  }

  lemma NoPageYet(s: State, e: nat)
    requires Inv(s) && e in s.procs && s.procs[e].fork.Forking? && !s.procs[e].fork.half
    ensures Addr(s.procs[e].fork.child, s.procs[e].fork.next) !in s.pt && s.procs[e].fork.child != e
  {
    Procs(s, e);
  }

  lemma SkipGives(s: State, e: nat)
    requires Inv(s) && Enabled(s, ForkSkip(e))
    ensures Given(s, Next(s, ForkSkip(e)), e)
  {
    NoPageYet(s, e);
    hide Inv;
  }

  lemma FirstShape(s: State, e: nat)
    requires Enabled(s, DupFirst(e)) && !Next(s, DupFirst(e)).procs[e].fork.half
    ensures
      var r, k := Next(s, DupFirst(e)), s.procs[e].fork;
      var a, b := Addr(e, k.next), Addr(k.child, k.next);
      && !(s.pt[a].d && !s.pt[a].lib && !s.pt[a].cow)
      && r.mem == s.mem && r.pt == s.pt[b := s.pt[a]]
      && e in r.procs && r.procs[e].fork == Forking(k.child, k.next + 1, false)
  {
    hide RefWrite, RefCopy, FreshFrame;
  }

  /** The entry both have afterwards. */
  function Left(q: Pte): (r: Pte) { if q.lib then q else Pte(q.frame, false, q.cow || q.d, false) }

  lemma GivenFrom(s: State, r: State, e: nat)
    requires e in s.procs && s.procs[e].fork.Forking? && s.procs[e].fork.child != e
    requires
      var k := s.procs[e].fork;
      var a, b := Addr(e, k.next), Addr(k.child, k.next);
      && a in s.pt && s.pt[a].frame in s.mem
      && r.mem == s.mem && r.pt == s.pt[a := Left(s.pt[a])][b := Left(s.pt[a])]
      && e in r.procs && r.procs[e].fork == Forking(k.child, k.next + 1, false)
    ensures Given(s, r, e)
  {
  }

  /** A page as such: mapped, with its frame, and COW only if it is neither writable nor shared. */
  lemma PageFacts(s: State, a: Addr)
    requires Inv(s) && a in s.pt
    ensures s.pt[a].frame in s.mem && (s.pt[a].cow ==> !s.pt[a].d && !s.pt[a].lib)
  {
    Pages(s, a);
    hide Inv, Ordinary;
  }

  lemma HalfFacts(s: State, e: nat)
    requires Inv(s) && e in s.procs && s.procs[e].fork.Forking? && s.procs[e].fork.half
    ensures
      var k := s.procs[e].fork;
      var a, b := Addr(e, k.next), Addr(k.child, k.next);
      && k.child != e && a in s.pt && b in s.pt && s.pt[a].d && !s.pt[a].lib && !s.pt[a].cow
      && s.pt[b].cow && s.pt[b].frame == s.pt[a].frame
  {
    Procs(s, e);
    hide Inv, FaultOk;
  }

  lemma FirstGives(s: State, e: nat)
    requires Inv(s) && Enabled(s, DupFirst(e)) && !Next(s, DupFirst(e)).procs[e].fork.half
    ensures Given(s, Next(s, DupFirst(e)), e)
  {
    var r, k := Next(s, DupFirst(e)), s.procs[e].fork;
    var a, b := Addr(e, k.next), Addr(k.child, k.next);
    FirstShape(s, e);
    NoPageYet(s, e);
    PageFacts(s, a);
    hide Inv, Next, Enabled;
    assert Left(s.pt[a]) == s.pt[a] && s.pt[a := s.pt[a]] == s.pt;
    GivenFrom(s, r, e);
  }

  lemma SecondGives(s: State, e: nat)
    requires Inv(s) && Enabled(s, DupSecond(e))
    ensures Given(s, Next(s, DupSecond(e)), e)
  {
    var r, k := Next(s, DupSecond(e)), s.procs[e].fork;
    var a, b := Addr(e, k.next), Addr(k.child, k.next);
    HalfFacts(s, e);
    PageFacts(s, a);
    PageFacts(s, b);
    SecondShape(s, e);
    hide Inv, Next, Enabled;
    assert s.pt[a := Left(s.pt[a])][b := Left(s.pt[a])] == s.pt[a := Left(s.pt[a])];
    GivenFrom(s, r, e);
  }

  lemma SecondShape(s: State, e: nat)
    requires Enabled(s, DupSecond(e)) && Addr(e, s.procs[e].fork.next) in s.pt
    requires s.pt[Addr(e, s.procs[e].fork.next)].d && !s.pt[Addr(e, s.procs[e].fork.next)].lib
    ensures
      var r, k := Next(s, DupSecond(e)), s.procs[e].fork;
      var a := Addr(e, k.next);
      && r.mem == s.mem && r.pt == s.pt[a := Pte(s.pt[a].frame, false, true, false)]
      && e in r.procs && r.procs[e].fork == Forking(k.child, k.next + 1, false)
  {
    hide RefWrite, RefCopy, FreshFrame;
  }

  lemma PassGives(s: State, x: Step, e: nat)
    requires Inv(s) && Enabled(s, x) && Passes(s, x, e)
    ensures Given(s, Next(s, x), e)
  {
    hide Inv, Given;
    OnlyLoopPasses(s, x, e);
    if x.ForkSkip? {
      SkipGives(s, e);
    } else if x.DupFirst? {
      FirstGives(s, e);
    } else {
      SecondGives(s, e);
    }
  }

  lemma OnlyLoopPasses(s: State, x: Step, e: nat)
    requires Enabled(s, x) && Passes(s, x, e)
    ensures x.e == e && (x.ForkSkip? || x.DupFirst? || x.DupSecond?)
    ensures x.DupFirst? ==> !Next(s, x).procs[e].fork.half
  {
    hide RefWrite, RefCopy, FreshFrame;
  }

  // ---------------------------------------------------------------------------
  // Keeping it until the child runs

  /** e is in the middle of a fork of c that has passed page v. */
  ghost predicate Past(s: State, e: nat, c: nat, v: nat) {
    e in s.procs && s.procs[e].fork.Forking? && s.procs[e].fork.child == c && v < s.procs[e].fork.next
  }

  /** A step changes page table entries of its own env, or the one its loop gives the child. */
  lemma StepTouches(s: State, x: Step, a: Addr)
    requires Enabled(s, x) && a.env != x.e
    requires x.DupFirst? ==> a != Addr(s.procs[x.e].fork.child, s.procs[x.e].fork.next)
    ensures (a in Next(s, x).pt <==> a in s.pt) && (a in s.pt ==> Next(s, x).pt[a] == s.pt[a])
  {
    hide RefWrite, RefCopy, FreshFrame;
  }

  /** It writes a frame its env maps writable, a new one, or its handler's scratch frame. */
  lemma StepWrites(s: State, x: Step, f: nat)
    requires Enabled(s, x) && f in s.mem
    requires x.Store? ==> f != s.pt[Addr(x.e, x.v)].frame
    requires x.Alloc? || x.FaultAlloc? ==> f != x.f
    requires x.FaultCopy? && Addr(x.e, UCOW) in s.pt ==> f != s.pt[Addr(x.e, UCOW)].frame
    ensures f in Next(s, x).mem && Next(s, x).mem[f] == s.mem[f]
  {
    hide RefWrite, RefCopy, FreshFrame;
  }

  /** Another env's place in its fork is not touched, but for a child's that starts or is let go. */
  lemma StepProcs(s: State, x: Step, e: nat)
    requires Enabled(s, x) && e in s.procs && e != x.e && (x.ForkStart? ==> x.child != e)
    ensures e in Next(s, x).procs && Next(s, x).procs[e].fork == s.procs[e].fork
  {
    hide RefWrite, RefCopy, FreshFrame;
  }

  lemma StepLoop(s: State, x: Step)
    requires Enabled(s, x) && s.procs[x.e].fork.Forking? && !x.ForkEnd? && s.procs[x.e].fork.child != x.e
    requires x.DupSecond? ==> Addr(x.e, s.procs[x.e].fork.next) in s.pt
    ensures
      var r, k := Next(s, x), s.procs[x.e].fork;
      && x.e in r.procs && r.procs[x.e].fork.Forking? && r.procs[x.e].fork.child == k.child
      && k.next <= r.procs[x.e].fork.next <= k.next + 1
  {
    hide RefWrite, RefCopy, FreshFrame;
  }

  /** Only e's own loop maps pages for c, and never one it has passed. */
  lemma EntryKept(s: State, x: Step, e: nat, c: nat, v: nat)
    requires Inv(s) && Enabled(s, x) && Past(s, e, c, v)
    ensures
      var r, b := Next(s, x), Addr(c, v);
      (b in r.pt <==> b in s.pt) && (b in s.pt ==> r.pt[b] == s.pt[b])
  {
    Procs(s, e); Procs(s, x.e);
    hide Inv, FaultOk, Next;
    StepTouches(s, x, Addr(c, v));
  }

  lemma NotShared(s: State, e: nat, c: nat, v: nat, a: Addr)
    requires Inv(s) && Past(s, e, c, v) && Addr(c, v) in s.pt && !s.pt[Addr(c, v)].lib
    requires a in s.pt && a.vpn != UCOW && s.pt[a].d && a != Addr(c, v)
    ensures s.pt[a].frame != s.pt[Addr(c, v)].frame
  {
    var b := Addr(c, v);
    Procs(s, e); Pages(s, b); Pairs(s, a, b);
    if a.env in s.procs { Procs(s, a.env); }
    Pages(s, a);
    hide Inv, FaultOk, CellOk, Ordinary;
  }

  lemma NotScratch(s: State, e: nat, c: nat, v: nat, x: nat)
    requires Inv(s) && Past(s, e, c, v) && Addr(c, v) in s.pt && x in s.procs && s.procs[x].fault.Alloced?
    ensures x != c && Addr(x, UCOW) in s.pt && s.pt[Addr(x, UCOW)].frame != s.pt[Addr(c, v)].frame
  {
    Procs(s, e); Procs(s, x);
    hide Inv, PageOk, PairOk, CellOk;
  }

  /** And nobody writes a private frame of c's. */
  lemma DataKept(s: State, x: Step, e: nat, c: nat, v: nat, data: Data)
    requires Inv(s) && Enabled(s, x) && Past(s, e, c, v) && Reads(s, Addr(c, v), data) && !s.pt[Addr(c, v)].lib
    ensures var f := s.pt[Addr(c, v)].frame; f in Next(s, x).mem && Next(s, x).mem[f] == data
  {
    Procs(s, e);
    if x.Store? { NotShared(s, e, c, v, Addr(x.e, x.v)); }
    if x.FaultCopy? { NotScratch(s, e, c, v, x.e); }
    hide Inv, FaultOk, Next;
    StepWrites(s, x, s.pt[Addr(c, v)].frame);
  }

  lemma GiftKept(s: State, x: Step, e: nat, c: nat, v: nat, g: Gift)
    requires Inv(s) && Enabled(s, x) && Past(s, e, c, v) && Has(s, c, v, g) && (g.Copy? ==> !g.q.lib)
    ensures Has(Next(s, x), c, v, g)
  {
    EntryKept(s, x, e, c, v);
    if g.Copy? { DataKept(s, x, e, c, v, g.data); }
    hide Inv, Next, Enabled;
  }

  /** The loop goes forward by one page at a time, or ends. */
  lemma LoopAdvances(s: State, x: Step, e: nat)
    requires Inv(s) && Enabled(s, x) && e in s.procs && s.procs[e].fork.Forking? && x != ForkEnd(e)
    ensures
      var r, k := Next(s, x), s.procs[e].fork;
      && e in r.procs && r.procs[e].fork.Forking? && r.procs[e].fork.child == k.child
      && r.procs[e].fork.next == k.next + (if Passes(s, x, e) then 1 else 0)
  {
    Procs(s, e);
    hide Inv, FaultOk, Next;
    if x.e == e { StepLoop(s, x); } else { StepProcs(s, x, e); }
  }

  lemma {:induction false} GiftLasts(s: State, xs: seq<Step>, e: nat, c: nat, v: nat, g: Gift)
    requires Inv(s) && Legal(s, xs) && ForkEnd(e) !in xs && Past(s, e, c, v) && Has(s, c, v, g)
    requires g.Copy? ==> !g.q.lib
    ensures Has(Run(s, xs), c, v, g) && Past(Run(s, xs), e, c, v)
    decreases |xs|
  {
    hide Inv, Next, Enabled, Has;
    if xs != [] {
      StepInv(s, xs[0]);
      GiftKept(s, xs[0], e, c, v, g);
      LoopAdvances(s, xs[0], e);
      GiftLasts(Next(s, xs[0]), xs[1..], e, c, v, g);
    }
  }

  // ---------------------------------------------------------------------------
  // Whole runs

  /** e is in the middle of a fork of c that has yet to pass page v. */
  ghost predicate Ahead(s: State, e: nat, c: nat, v: nat) {
    e in s.procs && s.procs[e].fork.Forking? && s.procs[e].fork.child == c && s.procs[e].fork.next <= v
  }

  /** Step k of the run takes the loop past v. */
  ghost predicate PassedAt(s: State, xs: seq<Step>, k: nat, e: nat, v: nat) {
    k < |xs| && Legal(s, xs[..k]) &&
    var m := Run(s, xs[..k]);
    Enabled(m, xs[k]) && Passes(m, xs[k], e) && m.procs[e].fork.next == v
  }

  lemma PassedLater(s: State, xs: seq<Step>, k: nat, e: nat, v: nat)
    requires xs != [] && Enabled(s, xs[0]) && PassedAt(Next(s, xs[0]), xs[1..], k, e, v)
    ensures PassedAt(s, xs, k + 1, e, v) && Run(s, xs[..k + 1]) == Run(Next(s, xs[0]), xs[1..][..k])
  {
    hide Next, Enabled, Passes;
    assert xs[..k + 1][1..] == xs[1..][..k] && xs[..k + 1][0] == xs[0];
  }

  /** The child gets every page.  In any interleaving, with the parent faulting and storing in the
      middle of its own fork, a page v the loop has passed is the child's exactly as it stood for
      the parent when it was passed: not at all, the same entry if it is a LIBRARY page, and
      otherwise the frame, read-only, with the data it held. */
  lemma {:induction false} ChildGetsPage(s: State, xs: seq<Step>, e: nat, c: nat, v: nat) returns (k: nat)
    requires Inv(s) && Legal(s, xs) && ForkEnd(e) !in xs && Ahead(s, e, c, v) && Past(Run(s, xs), e, c, v)
    ensures PassedAt(s, xs, k, e, v) && Has(Run(s, xs), c, v, Due(Run(s, xs[..k]), e, v))
    decreases |xs|
  {
    var x, r := xs[0], Next(s, xs[0]);
    StepInv(s, x);
    LoopAdvances(s, x, e);
    if Passes(s, x, e) && s.procs[e].fork.next == v {
      PassGives(s, x, e);
      assert xs[..0] == [];
      hide Inv, Next, Enabled, Has;
      GiftLasts(r, xs[1..], e, c, v, Due(s, e, v));
      k := 0;
    } else {
      hide Inv, Next, Enabled, Has, Passes;
      k := ChildGetsPage(r, xs[1..], e, c, v);
      PassedLater(s, xs, k, e, v);
      k := k + 1;
    }
  }

  lemma EndKeeps(s: State, e: nat)
    requires Inv(s) && Enabled(s, ForkEnd(e))
    ensures
      var r, c := Next(s, ForkEnd(e)), s.procs[e].fork.child;
      && r.pt == s.pt && r.mem == s.mem && Alive(r, c) && Alive(r, e) && r.procs[e].fork == NoFork
      && r.procs[c] == Proc(true, NoFork, NoFault) && s.procs[e].fork.next == USTACK && !s.procs[e].fork.half
  {
    Procs(s, e);
    hide Inv, FaultOk;
  }

  /** The child starts with it.  When fork lets the child go, each page below USTACKTOP is the child's
      as it stood for the parent when the loop passed it, and the reference agrees. */
  lemma ChildStarts(s: State, xs: seq<Step>, e: nat, c: nat, v: nat) returns (k: nat)
    requires Inv(s) && Legal(s, xs) && ForkEnd(e) !in xs && Ahead(s, e, c, v) && v < USTACK
    requires Enabled(Run(s, xs), ForkEnd(e)) && Run(s, xs).procs[e].fork.child == c
    ensures
      var t := Next(Run(s, xs), ForkEnd(e));
      && Alive(t, c) && PassedAt(s, xs, k, e, v)
      && var g := Due(Run(s, xs[..k]), e, v);
         && Has(t, c, v, g)
         && (g.Nothing? ==> Addr(c, v) !in t.view && Addr(c, v) !in t.cellOf)
         && (g.Same? && v != UCOW ==> Addr(c, v) in t.cellOf && t.cellOf[Addr(c, v)] == g.q.frame)
         && (g.Copy? && v != UCOW ==> RefReads(t, Addr(c, v), g.data))
  {
    RunInv(s, xs);
    var m := Run(s, xs);
    EndKeeps(m, e);
    StepInv(m, ForkEnd(e));
    var t := Next(m, ForkEnd(e));
    hide Next, Enabled;
    k := ChildGetsPage(s, xs, e, c, v);
    var g := Due(Run(s, xs[..k]), e, v);
    Pages(t, Addr(c, v));
    if g.Copy? && v != UCOW { ReadsAgree(t, Addr(c, v), g.data); }
    hide Inv, Passes, Ordinary;
  }

  // ---------------------------------------------------------------------------
  // Fork with nobody in between

  predicate LoopStep(x: Step, e: nat) { x.e == e && (x.ForkSkip? || x.DupFirst? || x.DupSecond?) }

  /** In m, the loop of a fork of c that began in s has changed what it has passed, and no more. */
  ghost predicate PageDone(s: State, m: State, e: nat, c: nat, v: nat)
    requires e in m.procs && m.procs[e].fork.Forking?
  {
    if v < m.procs[e].fork.next then Has(m, c, v, Due(s, e, v)) && Has(m, e, v, Due(s, e, v))
    else Kept(s, m, Addr(e, v))
  }

  ghost predicate LoopDone(s: State, m: State, e: nat, c: nat) {
    && Inv(m) && e in m.procs && m.procs[e].fork.Forking? && m.procs[e].fork.child == c && c != e && m.mem == s.mem
    && (forall v: nat :: PageDone(s, m, e, c, v))
    && (forall a: Addr :: a.env != e && a.env != c ==> Kept(s, m, a))
  }

  lemma StartShape(s: State, e: nat, c: nat)
    requires Enabled(s, ForkStart(e, c))
    ensures
      var r := Next(s, ForkStart(e, c));
      r.mem == s.mem && r.pt == s.pt && e != c && e in r.procs && r.procs[e].fork == Forking(c, 0, false)
  {
  }

  lemma LoopStarts(s: State, e: nat, c: nat)
    requires Inv(s) && Enabled(s, ForkStart(e, c))
    ensures LoopDone(s, Next(s, ForkStart(e, c)), e, c)
  {
    StepInv(s, ForkStart(e, c));
    StartShape(s, e, c);
    hide Inv, Next, Enabled, Has, Due;
  }

  lemma HasKept(m: State, r: State, c: nat, v: nat, g: Gift)
    requires Has(m, c, v, g) && Kept(m, r, Addr(c, v)) && r.mem == m.mem
    ensures Has(r, c, v, g)
  {
  }

  lemma DueKept(s: State, m: State, e: nat, v: nat)
    requires Kept(s, m, Addr(e, v)) && m.mem == s.mem
    ensures Due(m, e, v) == Due(s, e, v)
  {
  }

  /** A page other than the one the loop is at. */
  lemma PageStaysDone(s: State, m: State, r: State, e: nat, c: nat, v: nat)
    requires e in m.procs && m.procs[e].fork.Forking? && e in r.procs && r.procs[e].fork.Forking?
    requires PageDone(s, m, e, c, v) && Kept(m, r, Addr(e, v)) && Kept(m, r, Addr(c, v)) && r.mem == m.mem
    requires v < r.procs[e].fork.next <==> v < m.procs[e].fork.next
    ensures PageDone(s, r, e, c, v)
  {
    hide Has, Due;
    if v < m.procs[e].fork.next {
      HasKept(m, r, e, v, Due(s, e, v));
      HasKept(m, r, c, v, Due(s, e, v));
    }
  }

  lemma PassPage(s: State, m: State, r: State, e: nat, c: nat, v: nat)
    requires e in m.procs && m.procs[e].fork.Forking? && m.procs[e].fork.child == c && c != e && m.mem == s.mem
    requires Given(m, r, e) && PageDone(s, m, e, c, v)
    ensures PageDone(s, r, e, c, v)
  {
    hide Has, Due;
    var n := m.procs[e].fork.next;
    if v == n {
      DueKept(s, m, e, n);
    } else {
      assert Kept(m, r, Addr(e, v)) && Kept(m, r, Addr(c, v));
      PageStaysDone(s, m, r, e, c, v);
    }
  }

  lemma PassDone(s: State, m: State, x: Step, e: nat, c: nat)
    requires LoopDone(s, m, e, c) && Enabled(m, x) && LoopStep(x, e) && Passes(m, x, e)
    ensures LoopDone(s, Next(m, x), e, c)
  {
    StepInv(m, x);
    PassGives(m, x, e);
    var r := Next(m, x);
    hide Inv, Next, Enabled, Passes, Has, Due, PageDone, Kept;
    forall v: nat ensures PageDone(s, r, e, c, v) {
      assert PageDone(s, m, e, c, v);
      PassPage(s, m, r, e, c, v);
    }
    forall a: Addr | a.env != e && a.env != c ensures Kept(s, r, a) {
      assert Kept(s, m, a) && Kept(m, r, a);
      KeptTwice(s, m, r, a);
    }
  }

  lemma KeptTwice(s: State, m: State, r: State, a: Addr)
    requires Kept(s, m, a) && Kept(m, r, a)
    ensures Kept(s, r, a)
  {
  }

  lemma HalfKeeps(m: State, e: nat)
    requires Enabled(m, DupFirst(e)) && !Passes(m, DupFirst(e), e)
    ensures
      var r, k := Next(m, DupFirst(e)), m.procs[e].fork;
      && r.mem == m.mem && e in r.procs && r.procs[e].fork == Forking(k.child, k.next, true)
      && (forall a: Addr :: a != Addr(k.child, k.next) ==> Kept(m, r, a))
  {
    hide RefCopy;
  }

  lemma HalfDone(s: State, m: State, e: nat, c: nat)
    requires LoopDone(s, m, e, c) && Enabled(m, DupFirst(e)) && !Passes(m, DupFirst(e), e)
    ensures LoopDone(s, Next(m, DupFirst(e)), e, c)
  {
    StepInv(m, DupFirst(e));
    HalfKeeps(m, e);
    var r, n := Next(m, DupFirst(e)), m.procs[e].fork.next;
    hide Inv, Next, Enabled, Passes, Has, Due;
    forall v: nat ensures PageDone(s, r, e, c, v) {
      assert PageDone(s, m, e, c, v) && Kept(m, r, Addr(e, v));
      if v != n {
        assert Kept(m, r, Addr(c, v));
        PageStaysDone(s, m, r, e, c, v);
      }
    }
    hide PageDone;
    forall a: Addr | a.env != e && a.env != c ensures Kept(s, r, a) { assert Kept(s, m, a) && Kept(m, r, a); }
  }

  lemma LoopStepDone(s: State, m: State, x: Step, e: nat, c: nat)
    requires LoopDone(s, m, e, c) && Enabled(m, x) && LoopStep(x, e)
    ensures LoopDone(s, Next(m, x), e, c)
  {
    if Passes(m, x, e) {
      PassDone(s, m, x, e, c);
    } else if x.DupFirst? {
      HalfDone(s, m, e, c);
    } else {
      Procs(m, e);
      hide LoopDone;
    }
  }

  lemma {:induction false} LoopRunDone(s: State, m: State, xs: seq<Step>, e: nat, c: nat)
    requires LoopDone(s, m, e, c) && Legal(m, xs) && forall x :: x in xs ==> LoopStep(x, e)
    ensures LoopDone(s, Run(m, xs), e, c)
    decreases |xs|
  {
    hide LoopDone, Next, Enabled;
    if xs != [] {
      LoopStepDone(s, m, xs[0], e, c);
      LoopRunDone(s, Next(m, xs[0]), xs[1..], e, c);
    }
  }

  /** A fork with no other step between: the child is left with exactly the parent's pages below
      USTACKTOP, both read in each what the parent read before, LIBRARY pages are the same entries,
      nothing private stays writable in either, and no other env notices. */
  lemma ForkAlone(s: State, xs: seq<Step>, e: nat, c: nat, v: nat)
    requires Inv(s) && Enabled(s, ForkStart(e, c)) && Legal(Next(s, ForkStart(e, c)), xs)
    requires forall x :: x in xs ==> LoopStep(x, e)
    requires Enabled(Run(Next(s, ForkStart(e, c)), xs), ForkEnd(e))
    ensures
      var t := Next(Run(Next(s, ForkStart(e, c)), xs), ForkEnd(e));
      && Inv(t) && Alive(t, c) && t.mem == s.mem
      && (v < USTACK ==> Has(t, c, v, Due(s, e, v)) && Has(t, e, v, Due(s, e, v)))
      && (v < USTACK ==> (Addr(c, v) in t.pt <==> Addr(e, v) in s.pt))
      && (v < USTACK && Addr(e, v) in s.pt ==>
            s.pt[Addr(e, v)].frame in s.mem && t.pt[Addr(c, v)].frame == s.pt[Addr(e, v)].frame)
      && (v >= USTACK ==> Addr(c, v) !in t.pt)
      && (forall a: Addr :: a.env != e && a.env != c && a in s.pt ==> a in t.pt && t.pt[a] == s.pt[a])
  {
    LoopStarts(s, e, c);
    hide Next, Enabled;
    LoopRunDone(s, Next(s, ForkStart(e, c)), xs, e, c);
    var m := Run(Next(s, ForkStart(e, c)), xs);
    EndKeeps(m, e);
    StepInv(m, ForkEnd(e));
    assert !m.procs[e].fork.half;
    if v >= USTACK { NothingAbove(m, e, v); }
    if Addr(e, v) in s.pt { PageFacts(s, Addr(e, v)); }
    assert PageDone(s, m, e, c, v);
    hide Inv, PageDone;
    assert forall a: Addr :: a.env != e && a.env != c ==> Kept(s, m, a);
  }

  lemma NothingAbove(m: State, e: nat, v: nat)
    requires Inv(m) && e in m.procs && m.procs[e].fork.Forking? && !m.procs[e].fork.half && v >= m.procs[e].fork.next
    ensures Addr(m.procs[e].fork.child, v) !in m.pt
  {
    Procs(m, e);
    hide Inv, FaultOk;
  }

  // ---------------------------------------------------------------------------
  // The pages the loop hands to duppage

  /** The pages duppage is called for in a run. */
  ghost function Dups(s: State, xs: seq<Step>, e: nat): (d: seq<nat>)
    requires Legal(s, xs)
    decreases |xs|
  {
    if xs == [] then []
    else (if xs[0] == DupFirst(e) then [s.procs[e].fork.next] else []) + Dups(Next(s, xs[0]), xs[1..], e)
  }

  predicate Ascending(d: seq<nat>) { forall i, j :: 0 <= i < j < |d| ==> d[i] < d[j] }

  /** Pages the loop of m has still to come to, of those mapped in s. */
  ghost predicate ToCome(s: State, m: State, e: nat, v: nat)
    requires e in m.procs && m.procs[e].fork.Forking?
  {
    Addr(e, v) in s.pt && m.procs[e].fork.next <= v < USTACK && !(m.procs[e].fork.half && v == m.procs[e].fork.next)
  }

  lemma LoopShape(m: State, x: Step, e: nat)
    requires Enabled(m, x) && LoopStep(x, e) && m.procs[e].fork.child != e
    requires x.DupSecond? ==> Addr(e, m.procs[e].fork.next) in m.pt
    ensures
      var r, k := Next(m, x), m.procs[e].fork;
      && e in r.procs && (x.DupFirst? || x.ForkSkip? ==> !k.half && k.next < USTACK)
      && (x.DupFirst? ==> Addr(e, k.next) in m.pt) && (x.ForkSkip? ==> Addr(e, k.next) !in m.pt)
      && if x.DupFirst? && !MapAsIs(m.pt[Addr(e, k.next)]) then r.procs[e].fork == Forking(k.child, k.next, true)
         else r.procs[e].fork == Forking(k.child, k.next + 1, false)
  {
    hide RefCopy;
  }

  lemma LoopStepComes(s: State, m: State, x: Step, e: nat, c: nat, v: nat)
    requires LoopDone(s, m, e, c) && Enabled(m, x) && LoopStep(x, e)
    ensures
      var r, n := Next(m, x), m.procs[e].fork.next;
      && e in r.procs && r.procs[e].fork.Forking?
      && (ToCome(s, m, e, v) <==> (x.DupFirst? && v == n) || ToCome(s, r, e, v))
      && (x.DupFirst? && ToCome(s, r, e, v) ==> n < v)
  {
    var n := m.procs[e].fork.next;
    assert PageDone(s, m, e, c, n);
    if x.DupSecond? { HalfFacts(m, e); }
    LoopShape(m, x, e);
    hide Inv, Next, Has, Due;
  }

  lemma LoopStepFirst(s: State, m: State, x: Step, e: nat, c: nat, d: seq<nat>)
    requires LoopDone(s, m, e, c) && Enabled(m, x) && LoopStep(x, e) && LoopDone(s, Next(m, x), e, c)
    requires Ascending(d) && forall v: nat :: v in d <==> ToCome(s, Next(m, x), e, v)
    ensures
      var f := (if x == DupFirst(e) then [m.procs[e].fork.next] else []) + d;
      Ascending(f) && forall v: nat :: v in f <==> ToCome(s, m, e, v)
  {
    hide Inv, PageDone, Kept, Next, Enabled, ToCome, Ascending;
    var r, n := Next(m, x), m.procs[e].fork.next;
    forall v: nat
      ensures ToCome(s, m, e, v) <==> (x.DupFirst? && v == n) || ToCome(s, r, e, v)
      ensures x.DupFirst? && ToCome(s, r, e, v) ==> n < v
    {
      LoopStepComes(s, m, x, e, c, v);
    }
    hide LoopDone;
    if x.DupFirst? {
      Prepend(n, d);
    } else {
      assert [] + d == d;
    }
  }

  lemma Prepend(n: nat, d: seq<nat>)
    requires Ascending(d) && forall v :: v in d ==> n < v
    ensures Ascending([n] + d) && forall v: nat :: v in [n] + d <==> v == n || v in d
  {
    assert forall i :: 0 <= i < |d| ==> d[i] in d;
  }

  lemma {:induction false} LoopRunDups(s: State, m: State, xs: seq<Step>, e: nat, c: nat)
    requires LoopDone(s, m, e, c) && Legal(m, xs) && forall x :: x in xs ==> LoopStep(x, e)
    requires LoopDone(s, Run(m, xs), e, c) && Run(m, xs).procs[e].fork.next == USTACK
    ensures Ascending(Dups(m, xs, e)) && forall v: nat :: v in Dups(m, xs, e) <==> ToCome(s, m, e, v)
    decreases |xs|
  {
    if xs != [] {
      LoopStepDone(s, m, xs[0], e, c);
      hide Next, Enabled, ToCome, Inv, PageDone, Kept;
      LoopRunDups(s, Next(m, xs[0]), xs[1..], e, c);
      LoopStepFirst(s, m, xs[0], e, c, Dups(Next(m, xs[0]), xs[1..], e));
    }
  }

  lemma {:induction false} SameAscending(a: seq<nat>, b: seq<nat>)
    requires Ascending(a) && Ascending(b) && forall v: nat :: v in a <==> v in b
    ensures a == b
  {
    if a != [] || b != [] {
      assert (a != [] ==> a[0] in b) && (b != [] ==> b[0] in a);
      FirstLeast(a, b[0]);
      FirstLeast(b, a[0]);
      assert a == [a[0]] + a[1..] && b == [b[0]] + b[1..];
      forall v: nat ensures v in a[1..] <==> v in b[1..] {
        NotFirst(a, v);
        NotFirst(b, v);
      }
      SameAscending(a[1..], b[1..]);
    }
  }

  lemma FirstLeast(a: seq<nat>, v: nat)
    requires Ascending(a) && v in a
    ensures a[0] <= v
  {
  }

  lemma NotFirst(a: seq<nat>, v: nat)
    requires Ascending(a) && a != []
    ensures v in a[1..] <==> v in a && v != a[0]
  {
    assert a == [a[0]] + a[1..];
  }

  /** The two loops of fork, which skip unmapped tables, call duppage for the very pages the steps
      above do, in the same order. */
  lemma LoopMatchesSteps(s: State, xs: seq<Step>, e: nat, c: nat, vpd: set<nat>, vpt: set<nat>, dup: seq<nat>)
    requires Inv(s) && Enabled(s, ForkStart(e, c)) && Legal(Next(s, ForkStart(e, c)), xs)
    requires forall x :: x in xs ==> LoopStep(x, e)
    requires Enabled(Run(Next(s, ForkStart(e, c)), xs), ForkEnd(e))
    requires forall v: nat :: v < USTACK ==> (Addr(e, v) in s.pt <==> v / PTES in vpd && v in vpt)
    requires Ascending(dup) && forall v :: v in dup <==> v < USTACK && v / PTES in vpd && v in vpt
    ensures dup == Dups(Next(s, ForkStart(e, c)), xs, e)
  {
    LoopStarts(s, e, c);
    StartShape(s, e, c);
    hide Next, Enabled;
    var m := Next(s, ForkStart(e, c));
    LoopRunDone(s, m, xs, e, c);
    EndKeeps(Run(m, xs), e);
    LoopRunDups(s, m, xs, e, c);
    hide LoopDone;
    SameAscending(dup, Dups(m, xs, e));
  }

  // ---------------------------------------------------------------------------
  // Who sees what an env does to its pages

  /** A store is seen in the page itself and, if that is a LIBRARY page, in every page of the same
      cell; in any other page of a running env nothing changes. */
  lemma StoreSeenBySharers(s: State, e: nat, v: nat, data: Data, a: Addr)
    requires Inv(s) && Enabled(s, Store(e, v, data)) && Alive(s, a.env) && a.vpn != UCOW && a in s.pt
    ensures
      var r, w := Next(s, Store(e, v, data)), Addr(e, v);
      && r.pt == s.pt && s.pt[a].frame in s.mem
      && if a == w || (s.pt[w].lib && a in s.cellOf && s.cellOf[a] == s.pt[w].frame) then Reads(r, a, data)
         else Reads(r, a, s.mem[s.pt[a].frame])
  {
    var w := Addr(e, v);
    Pages(s, a); Pages(s, w); Pairs(s, a, w);
    NotHalf(s, a);
    hide Inv, RefWrite;
  }

  /** A new page reads zero, is writable, and no other page changes. */
  lemma AllocIsZero(s: State, e: nat, v: nat, f: nat, lib: bool, a: Addr)
    requires Inv(s) && Enabled(s, Alloc(e, v, f, lib))
    ensures
      var r, w := Next(s, Alloc(e, v, f, lib)), Addr(e, v);
      && w in r.pt && r.pt[w] == Pte(f, true, false, lib) && Reads(r, w, ZERO)
      && (a != w ==> Kept(s, r, a) && (a in s.pt ==> s.pt[a].frame in s.mem && Reads(r, a, s.mem[s.pt[a].frame])))
  {
    if a in s.pt { PageFacts(s, a); }
    hide Inv;
  }

  lemma UnmapTakesOne(s: State, e: nat, v: nat, a: Addr)
    requires Inv(s) && Enabled(s, Unmap(e, v))
    ensures
      var r := Next(s, Unmap(e, v));
      Addr(e, v) !in r.pt && r.mem == s.mem && (a != Addr(e, v) ==> Kept(s, r, a))
  {
    hide Inv;
  }
}
