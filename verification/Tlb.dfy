/** TLB coherence (kern/tlbex.c over kern/smp.c and kern/pmap.c): page-table updates, TLB
    refills and shootdowns of all CPUs, interleaved at single accesses.

    The machine is the IPI machine with page tables and TLBs around it.  An update is one
    pmap_lock section; then the CPU flushes the pair from its own TLB and broadcasts
    tlb_invalidate_local with smp_group_function_call.  Each update of a pair gets the
    next version number of that pair, and a TLB entry remembers the version current when
    its refill began, which is what lets "the replaced translation" be stated. */
module Tlb {
  import Ipi

  /** A TLB entry maps the two pages of a pair (EntryHi holds the VPN2 and the ASID). */
  datatype Pair = Pair(asid: nat, vpn2: nat)
  datatype Page = Page(asid: nat, vpn: nat)

  function PairOf(g: Page): (r: Pair) { Pair(g.asid, g.vpn / 2) }
  function Even(p: Pair): (r: Page) { Page(p.asid, 2 * p.vpn2) }
  function Odd(p: Pair): (r: Page) { Page(p.asid, 2 * p.vpn2 + 1) }

  datatype Entry = Entry(lo: nat, hi: nat, ver: nat)

  /** What a CPU is doing besides its IPI position.  Interrupts are off in the kernel, so
      mailboxes are served from User and inside ipi_wait_done only. */
  datatype Phase =
    | User
    | Dirty(g: Page, ver: nat)
    | Flushed(g: Page, ver: nat)
    | Calling(g: Page, ver: nat)
    | ReadEven(p: Pair, lo: nat, ver: nat)
    | ReadBoth(p: Pair, lo: nat, hi: nat, ver: nat)
  {
    predicate Shooting() { Dirty? || Flushed? || Calling? }
    predicate Refilling() { ReadEven? || ReadBoth? }
  }

  datatype State = State(ipi: Ipi.State, pt: map<Page, nat>, ver: map<Pair, nat>,
                         tlb: seq<map<Pair, Entry>>, phase: seq<Phase>)

  /** tlb_invalidate_local as a mailbox function; pmap_lock is leaf lock 0. */
  const FN_TLB: nat := 1
  const PMAP_LOCK: nat := 0

  function Pte(s: State, g: Page): (r: nat) { if g in s.pt then s.pt[g] else 0 }
  function Ver(s: State, p: Pair): (r: nat) { if p in s.ver then s.ver[p] else 0 }
  function N(s: State): (r: nat) { |s.tlb| }

  datatype Step =
    | Update(c: nat, g: Page, pte: nat)
    | LocalFlush(c: nat)
    | Broadcast(c: nat)
    | FetchEven(c: nat, p: Pair)
    | FetchOdd(c: nat)
    | Fill(c: nat)
    | Evict(c: nat, p: Pair)
    | Ipi(st: Ipi.Step)

  predicate Shape(s: State) {
    Ipi.Shape(s.ipi) && |s.tlb| == |s.phase| == Ipi.N(s.ipi)
  }

  predicate Init(s: State) {
    && Shape(s) && Ipi.Init(s.ipi) && s.pt == map[] && s.ver == map[]
    && (forall c :: 0 <= c < N(s) ==> s.tlb[c] == map[] && s.phase[c] == User)
  }

  /** CPU c is outside any call or lock section and not serving its mailbox. */
  predicate AtRest(s: State, c: nat)
    requires Shape(s) && c < N(s)
  {
    s.ipi.cpus[c].pc == Ipi.Idle && s.ipi.cpus[c].irq == Ipi.NoIrq && c in s.ipi.ready
  }

  function ShootCall(g: Page): (r: Ipi.Call) { Ipi.Call(FN_TLB, g.asid, g.vpn) }
  function CallPair(call: Ipi.Call): (r: Pair) { Pair(call.arg0, call.arg1 / 2) }

  predicate Enabled(s: State, st: Step)
    requires Shape(s)
  {
    match st
    case Update(c, g, pte) => c < N(s) && s.phase[c] == User && s.ipi.cpus[c].pc == Ipi.LeafHeld(PMAP_LOCK)
    case LocalFlush(c) => c < N(s) && s.phase[c].Dirty? && AtRest(s, c)
    case Broadcast(c) => c < N(s) && s.phase[c].Flushed? && AtRest(s, c)
    case FetchEven(c, p) => c < N(s) && s.phase[c] == User && AtRest(s, c)
    case FetchOdd(c) => c < N(s) && s.phase[c].ReadEven?
    case Fill(c) => c < N(s) && s.phase[c].ReadBoth?
    case Evict(c, p) => c < N(s)
    case Ipi(x) =>
      && Ipi.Enabled(s.ipi, x)
      && match x
         case Online(c) => true
         case Start(c, call) => s.phase[c] == User && call.fn != FN_TLB
         case Leaf(c, l) => s.phase[c] == User
         case Advance(c) => !s.phase[c].Refilling()
         case Poll(c) => s.phase[c] == User || s.phase[c].Calling?
         case Serve(c) => s.phase[c] == User || s.phase[c].Calling?
  }

  /** The TLB and phase effects of an IPI step: a served shootdown drops the pair, a finished
      broadcast ends the update. */
  function IpiTlb(s: State, x: Ipi.Step): (tlb: seq<map<Pair, Entry>>)
    requires Shape(s) && Ipi.Enabled(s.ipi, x)
    ensures |tlb| == |s.tlb|
  {
    if x.Serve? && s.ipi.cpus[x.c].irq.Execute? && s.ipi.cpus[x.c].irq.call.fn == FN_TLB then
      s.tlb[x.c := s.tlb[x.c] - {CallPair(s.ipi.cpus[x.c].irq.call)}]
    else s.tlb
  }

  function IpiPhase(s: State, x: Ipi.Step): (phase: seq<Phase>)
    requires Shape(s) && Ipi.Enabled(s.ipi, x)
    ensures |phase| == |s.phase|
  {
    if x.Advance? && s.phase[x.c].Calling? && Ipi.Next(s.ipi, x).cpus[x.c].pc == Ipi.Idle
    then s.phase[x.c := User] else s.phase
  }

  function Next(s: State, st: Step): (r: State)
    requires Shape(s) && Enabled(s, st)
    ensures Shape(r) && N(r) == N(s)
  {
    match st
    case Update(c, g, pte) =>
      var n := Ver(s, PairOf(g)) + 1;
      s.(pt := s.pt[g := pte], ver := s.ver[PairOf(g) := n], phase := s.phase[c := Dirty(g, n)])
    case LocalFlush(c) =>
      var d := s.phase[c];
      s.(tlb := s.tlb[c := s.tlb[c] - {PairOf(d.g)}], phase := s.phase[c := Flushed(d.g, d.ver)])
    case Broadcast(c) =>
      var d := s.phase[c];
      s.(ipi := Ipi.Next(s.ipi, Ipi.Start(c, ShootCall(d.g))), phase := s.phase[c := Calling(d.g, d.ver)])
    case FetchEven(c, p) =>
      s.(tlb := s.tlb[c := s.tlb[c] - {p}], phase := s.phase[c := ReadEven(p, Pte(s, Even(p)), Ver(s, p))])
    case FetchOdd(c) =>
      var d := s.phase[c];
      s.(phase := s.phase[c := ReadBoth(d.p, d.lo, Pte(s, Odd(d.p)), d.ver)])
    case Fill(c) =>
      var d := s.phase[c];
      s.(tlb := s.tlb[c := s.tlb[c][d.p := Entry(d.lo, d.hi, d.ver)]], phase := s.phase[c := User])
    case Evict(c, p) => s.(tlb := s.tlb[c := s.tlb[c] - {p}])
    case Ipi(x) => s.(ipi := Ipi.Next(s.ipi, x), tlb := IpiTlb(s, x), phase := IpiPhase(s, x))
  }

  // ---------------------------------------------------------------------------
  // The invariant

  /** CPU c's shootdown of update n of pair p has yet to execute on CPU t. */
  ghost predicate Owes(s: State, c: nat, t: nat, p: Pair, n: nat)
    requires Shape(s)
  {
    && c < N(s) && t < N(s)
    && s.phase[c].Shooting() && PairOf(s.phase[c].g) == p && s.phase[c].ver == n
    && (s.phase[c].Flushed? ==> t != c)
    && (s.phase[c].Calling? ==>
          && t != c && s.ipi.cpus[c].pc.InCall() && s.ipi.cpus[c].pc.k <= t
          && s.ipi.cpus[c].ran[t] == 0)
  }

  ghost predicate Debt(s: State, t: nat, p: Pair, n: nat)
    requires Shape(s)
  {
    exists c: nat :: Owes(s, c, t, p, n)
  }

  /** Something read at version v on CPU t: every later update still owes t a shootdown. */
  ghost predicate Covered(s: State, t: nat, p: Pair, v: nat)
    requires Shape(s)
  {
    v <= Ver(s, p) && forall n: nat :: v < n <= Ver(s, p) ==> Debt(s, t, p, n)
  }

  /** An entry of the current version is the current PTE pair; an older one is covered. */
  ghost predicate EntryOk(s: State, t: nat, p: Pair)
    requires Shape(s) && t < N(s)
  {
    p in s.tlb[t] ==>
      var e := s.tlb[t][p];
      && Covered(s, t, p, e.ver)
      && (e.ver == Ver(s, p) ==> e.lo == Pte(s, Even(p)) && e.hi == Pte(s, Odd(p)))
  }

  ghost predicate PhaseOk(s: State, t: nat)
    requires Shape(s) && t < N(s)
  {
    match s.phase[t]
    case User => !(s.ipi.cpus[t].pc.InCall() && s.ipi.cpus[t].call.fn == FN_TLB)
    case Dirty(_, _) =>
      s.ipi.cpus[t].irq == Ipi.NoIrq && (s.ipi.cpus[t].pc == Ipi.Idle || s.ipi.cpus[t].pc == Ipi.LeafHeld(PMAP_LOCK))
    case Flushed(_, _) => s.ipi.cpus[t].pc == Ipi.Idle && s.ipi.cpus[t].irq == Ipi.NoIrq
    case Calling(g, _) => s.ipi.cpus[t].pc.InCall() && s.ipi.cpus[t].call == ShootCall(g)
    case ReadEven(p, lo, v) =>
      s.ipi.cpus[t].pc == Ipi.Idle && s.ipi.cpus[t].irq == Ipi.NoIrq && Covered(s, t, p, v)
      && (v == Ver(s, p) ==> lo == Pte(s, Even(p)))
    case ReadBoth(p, lo, hi, v) =>
      s.ipi.cpus[t].pc == Ipi.Idle && s.ipi.cpus[t].irq == Ipi.NoIrq && Covered(s, t, p, v)
      && (v == Ver(s, p) ==> lo == Pte(s, Even(p)) && hi == Pte(s, Odd(p)))
  }

  /** A CPU that is not online has touched nothing. */
  ghost predicate OfflineOk(s: State, t: nat)
    requires Shape(s) && t < N(s)
  {
    t !in s.ipi.ready ==> s.tlb[t] == map[] && s.phase[t] == User
  }

  ghost predicate Inv(s: State) {
    && Shape(s) && Ipi.Inv(s.ipi)
    && (forall t: nat, p: Pair :: t < N(s) ==> EntryOk(s, t, p))
    && (forall t: nat :: t < N(s) ==> PhaseOk(s, t))
    && (forall t: nat :: t < N(s) ==> OfflineOk(s, t))
  }

  lemma InitInv(s: State)
    requires Init(s)
    ensures Inv(s)
  {
    Ipi.InitInv(s.ipi);
  }

  // ---------------------------------------------------------------------------
  // What every step does to the debts

  /** Debts to t about p survive the step, except that t may have paid by dropping p. */
  ghost predicate DebtsKept(s: State, r: State, t: nat, p: Pair)
    requires Shape(s) && Shape(r)
  {
    forall c: nat, n: nat :: Owes(s, c, t, p, n) ==> Owes(r, c, t, p, n)
  }

  lemma CoveredKept(s: State, r: State, t: nat, p: Pair, v: nat)
    requires Shape(s) && Shape(r) && Covered(s, t, p, v) && Ver(r, p) == Ver(s, p) && DebtsKept(s, r, t, p)
    ensures Covered(r, t, p, v)
  {
    forall n: nat | v < n <= Ver(r, p) ensures Debt(r, t, p, n) {
      assert Debt(s, t, p, n);
      var c: nat :| Owes(s, c, t, p, n);
      assert Owes(r, c, t, p, n);
    }
  }

  /** CPU c's own step of the broadcast, with t still ahead or under way. */
  lemma AdvanceDebt(s: State, c: nat, t: nat, p: Pair, n: nat)
    requires Inv(s) && Enabled(s, Ipi(Ipi.Advance(c))) && Owes(s, c, t, p, n) && t in s.ipi.ready
    ensures Owes(Next(s, Ipi(Ipi.Advance(c))), c, t, p, n)
  {
    assert PhaseOk(s, c) && Ipi.CpuOk(s.ipi, c);
    if s.ipi.cpus[c].pc.HoldsMailbox() {
      assert Ipi.TargetOk(s.ipi, s.ipi.cpus[c].pc.k);
    }
    hide Ipi.Inv, Ipi.Waited, Ipi.Progress;
  }

  /** CPU x serves its mailbox: it can only pay debts to itself, of its waiter's call. */
  lemma ServeDebt(s: State, x: nat, c: nat, t: nat, p: Pair, n: nat)
    requires Inv(s) && Enabled(s, Ipi(Ipi.Serve(x))) && Owes(s, c, t, p, n)
    requires !(x == t && s.ipi.cpus[t].irq.Execute? && s.ipi.cpus[t].irq.call.fn == FN_TLB
               && CallPair(s.ipi.cpus[t].irq.call) == p)
    ensures Owes(Next(s, Ipi(Ipi.Serve(x))), c, t, p, n)
  {
    Ipi.ServesAWaiter(s.ipi, x);
    assert PhaseOk(s, c) && PhaseOk(s, x);
    hide Ipi.Inv, Ipi.TargetOk, Ipi.CpuOk;
  }

  /** The IPI machine moves one CPU: a debt to an online t stays, unless t executes it now. */
  lemma IpiDebt(s: State, x: Ipi.Step, c: nat, t: nat, p: Pair, n: nat)
    requires Inv(s) && Enabled(s, Ipi(x)) && Owes(s, c, t, p, n)
    requires !(x.Serve? && x.c == t && s.ipi.cpus[t].irq.Execute? && s.ipi.cpus[t].irq.call.fn == FN_TLB
               && CallPair(s.ipi.cpus[t].irq.call) == p)
    requires t in s.ipi.ready
    ensures Owes(Next(s, Ipi(x)), c, t, p, n)
  {
    assert PhaseOk(s, c);
    if x.Serve? {
      ServeDebt(s, x.c, c, t, p, n);
    } else if x.Advance? && x.c == c {
      AdvanceDebt(s, c, t, p, n);
    }
  }

  // ---------------------------------------------------------------------------
  // Every step keeps the invariant

  /** What CPU t holds or has read about p stays covered over an IPI step, unless t drops p. */
  lemma IpiCovered(s: State, x: Ipi.Step, t: nat, p: Pair, v: nat)
    requires Inv(s) && Enabled(s, Ipi(x)) && Covered(s, t, p, v) && t in s.ipi.ready
    requires !(x.Serve? && x.c == t && s.ipi.cpus[t].irq.Execute? && s.ipi.cpus[t].irq.call.fn == FN_TLB
               && CallPair(s.ipi.cpus[t].irq.call) == p)
    ensures Covered(Next(s, Ipi(x)), t, p, v)
  {
    var r := Next(s, Ipi(x));
    hide Inv, Owes;
    forall c: nat, n: nat | Owes(s, c, t, p, n) ensures Owes(r, c, t, p, n) {
      IpiDebt(s, x, c, t, p, n);
    }
    CoveredKept(s, r, t, p, v);
  }

  lemma IpiEntry(s: State, x: Ipi.Step, t: nat, p: Pair)
    requires Inv(s) && Enabled(s, Ipi(x)) && t < N(s)
    ensures EntryOk(Next(s, Ipi(x)), t, p)
  {
    var r := Next(s, Ipi(x));
    assert EntryOk(s, t, p) && OfflineOk(s, t);
    hide Inv, Covered, Ipi.Next;
    if p in r.tlb[t] {
      IpiCovered(s, x, t, p, s.tlb[t][p].ver);
    }
  }

  /** The step of one CPU leaves where another is, and what it calls, alone. */
  lemma OtherCpuSame(s: Ipi.State, x: Ipi.Step, t: nat)
    requires Ipi.Shape(s) && Ipi.Enabled(s, x) && t < Ipi.N(s) && t != x.c
    ensures var u, v := s.cpus[t], Ipi.Next(s, x).cpus[t]; u.pc == v.pc && u.irq == v.irq && u.call == v.call
  {
  }

  /** The CPU of the step itself. */
  lemma SameCpuPhase(s: State, x: Ipi.Step)
    requires Inv(s) && Enabled(s, Ipi(x)) && !s.phase[x.c].Refilling()
    ensures PhaseOk(Next(s, Ipi(x)), x.c)
  {
    assert PhaseOk(s, x.c) && OfflineOk(s, x.c) && Ipi.CpuOk(s.ipi, x.c);
    if x.Serve? { Ipi.ServesAWaiter(s.ipi, x.c); }
    hide Inv, Covered, Ipi.Inv, Ipi.CpuOk, Ipi.Waited;
  }

  lemma RefillPhase(s: State, x: Ipi.Step, t: nat)
    requires Inv(s) && Enabled(s, Ipi(x)) && t < N(s) && s.phase[t].Refilling()
    ensures PhaseOk(Next(s, Ipi(x)), t)
  {
    assert PhaseOk(s, t) && Ipi.CpuOk(s.ipi, t) && OfflineOk(s, t);
    IpiCovered(s, x, t, s.phase[t].p, s.phase[t].ver);
    if t != x.c { OtherCpuSame(s.ipi, x, t); }
    hide Inv, Covered, Ipi.Inv, Ipi.CpuOk;
  }

  lemma IpiPhaseOk(s: State, x: Ipi.Step, t: nat)
    requires Inv(s) && Enabled(s, Ipi(x)) && t < N(s)
    ensures PhaseOk(Next(s, Ipi(x)), t)
  {
    if s.phase[t].Refilling() {
      RefillPhase(s, x, t);
    } else if t == x.c {
      SameCpuPhase(s, x);
    } else {
      assert PhaseOk(s, t);
      OtherCpuSame(s.ipi, x, t);
      hide Inv, Covered, Ipi.Next;
    }
  }

  lemma IpiInv(s: State, x: Ipi.Step)
    requires Inv(s) && Enabled(s, Ipi(x))
    ensures Inv(Next(s, Ipi(x)))
  {
    var r := Next(s, Ipi(x));
    Ipi.StepInv(s.ipi, x);
    forall t: nat, p: Pair | t < N(s) ensures EntryOk(r, t, p) { IpiEntry(s, x, t, p); }
    forall t: nat | t < N(s) ensures PhaseOk(r, t) { IpiPhaseOk(s, x, t); }
    forall t: nat | t < N(s) ensures OfflineOk(r, t) {
      assert OfflineOk(s, t);
      if x.Serve? { assert Ipi.CpuOk(s.ipi, x.c); }
      hide Inv, EntryOk, PhaseOk;
    }
  }

  lemma PairParts(p: Pair, g: Page)
    ensures PairOf(Even(p)) == p && PairOf(Odd(p)) == p
    ensures g == Even(PairOf(g)) || g == Odd(PairOf(g))
  {
  }

  /** A step of one CPU's own work keeps every debt, but for LocalFlush paying its own. */
  lemma OwnStepDebts(s: State, st: Step, t: nat, p: Pair)
    requires Inv(s) && Enabled(s, st) && !st.Ipi?
    requires st.LocalFlush? ==> !(t == st.c && p == PairOf(s.phase[st.c].g))
    ensures DebtsKept(s, Next(s, st), t, p)
  {
    var r := Next(s, st);
    forall c: nat, n: nat | Owes(s, c, t, p, n) ensures Owes(r, c, t, p, n) {
      assert PhaseOk(s, c);
      hide Inv, PhaseOk;
    }
  }

  /** Coverage after such a step; an update adds one version, and with it its own debt. */
  lemma OwnStepCovered(s: State, st: Step, t: nat, p: Pair, v: nat)
    requires Inv(s) && Enabled(s, st) && !st.Ipi? && Covered(s, t, p, v) && t < N(s)
    requires st.LocalFlush? ==> !(t == st.c && p == PairOf(s.phase[st.c].g))
    ensures Covered(Next(s, st), t, p, v)
  {
    var r := Next(s, st);
    hide Inv;
    OwnStepDebts(s, st, t, p);
    if st.Update? && PairOf(st.g) == p {
      forall n: nat | v < n <= Ver(r, p) ensures Debt(r, t, p, n) {
        if n <= Ver(s, p) {
          assert Debt(s, t, p, n);
          var c: nat :| Owes(s, c, t, p, n);
          assert Owes(r, c, t, p, n);
        } else {
          assert Owes(r, st.c, t, p, n);
        }
      }
    } else {
      CoveredKept(s, r, t, p, v);
    }
  }

  lemma OwnStepEntry(s: State, st: Step, t: nat, p: Pair)
    requires Inv(s) && Enabled(s, st) && !st.Ipi? && t < N(s)
    ensures EntryOk(Next(s, st), t, p)
  {
    var r := Next(s, st);
    assert EntryOk(s, t, p) && PhaseOk(s, t);
    PairParts(p, Page(0, 0));
    hide Inv, Covered;
    if p in r.tlb[t] {
      if st.Fill? && st.c == t && p == s.phase[t].p {
        OwnStepCovered(s, st, t, p, s.phase[t].ver);
      } else {
        OwnStepCovered(s, st, t, p, s.tlb[t][p].ver);
      }
      VersionBound(s, t, p);
    }
  }

  /** No entry and no refill in progress is ahead of its pair. */
  lemma VersionBound(s: State, t: nat, p: Pair)
    requires Inv(s) && t < N(s)
    ensures p in s.tlb[t] ==> s.tlb[t][p].ver <= Ver(s, p)
    ensures s.phase[t].Refilling() ==> s.phase[t].ver <= Ver(s, s.phase[t].p)
  {
    assert EntryOk(s, t, p) && PhaseOk(s, t);
  }

  lemma OwnStepPhase(s: State, st: Step, t: nat)
    requires Inv(s) && Enabled(s, st) && !st.Ipi? && t < N(s)
    ensures PhaseOk(Next(s, st), t)
  {
    var r := Next(s, st);
    assert PhaseOk(s, t) && Ipi.CpuOk(s.ipi, t);
    if s.phase[t].Refilling() {
      PairParts(s.phase[t].p, Page(0, 0));
      VersionBound(s, t, s.phase[t].p);
      OwnStepCovered(s, st, t, s.phase[t].p, s.phase[t].ver);
    }
    hide Inv, Ipi.Inv, Ipi.CpuOk;
  }

  lemma OwnStepInv(s: State, st: Step)
    requires Inv(s) && Enabled(s, st) && !st.Ipi?
    ensures Inv(Next(s, st))
  {
    var r := Next(s, st);
    if st.Broadcast? { Ipi.StepInv(s.ipi, Ipi.Start(st.c, ShootCall(s.phase[st.c].g))); }
    forall t: nat, p: Pair | t < N(s) ensures EntryOk(r, t, p) { OwnStepEntry(s, st, t, p); }
    forall t: nat | t < N(s) ensures PhaseOk(r, t) { OwnStepPhase(s, st, t); }
    forall t: nat | t < N(s) ensures OfflineOk(r, t) {
      assert OfflineOk(s, t) && PhaseOk(s, t) && Ipi.CpuOk(s.ipi, t);
      hide Inv, EntryOk, Ipi.Inv;
    }
  }

  lemma StepInv(s: State, st: Step)
    requires Inv(s) && Enabled(s, st)
    ensures Inv(Next(s, st))
  {
    if st.Ipi? { IpiInv(s, st.st); } else { OwnStepInv(s, st); }
  }

  // ---------------------------------------------------------------------------
  // Runs

  predicate Legal(s: State, steps: seq<Step>)
    requires Shape(s)
    decreases |steps|
  {
    steps == [] || (Enabled(s, steps[0]) && Legal(Next(s, steps[0]), steps[1..]))
  }

  function Run(s: State, steps: seq<Step>): (r: State)
    requires Shape(s) && Legal(s, steps)
    ensures Shape(r) && N(r) == N(s)
    decreases |steps|
  {
    if steps == [] then s else Run(Next(s, steps[0]), steps[1..])
  }

  lemma {:induction false} RunInv(s: State, steps: seq<Step>)
    requires Inv(s) && Legal(s, steps)
    ensures Inv(Run(s, steps))
    decreases |steps|
  {
    if steps != [] {
      StepInv(s, steps[0]);
      RunInv(Next(s, steps[0]), steps[1..]);
    }
  }

  /** In every interleaving, a TLB entry is the current PTE pair or the shootdown of the
      latest update of its pair has yet to execute on that CPU. */
  lemma Coherence(s: State, steps: seq<Step>, t: nat, p: Pair)
    requires Init(s) && Legal(s, steps) && t < N(s) && p in Run(s, steps).tlb[t]
    ensures
      var r := Run(s, steps);
      var e := r.tlb[t][p];
      || (e.lo == Pte(r, Even(p)) && e.hi == Pte(r, Odd(p)))
      || exists c: nat :: Owes(r, c, t, p, Ver(r, p))
  {
    InitInv(s);
    RunInv(s, steps);
    var r := Run(s, steps);
    assert EntryOk(r, t, p);
    if r.tlb[t][p].ver < Ver(r, p) { assert Debt(r, t, p, Ver(r, p)); }
  }

  /** Update n of pair p has been made and the page_insert or page_remove that made it has
      returned. */
  ghost predicate Returned(s: State, p: Pair, n: nat)
    requires Shape(s)
  {
    n <= Ver(s, p) && forall c: nat :: c < N(s) ==>
      !(s.phase[c].Shooting() && PairOf(s.phase[c].g) == p && s.phase[c].ver == n)
  }

  /** Then no CPU holds a translation that was fetched before that update, even if further
      updates of the pair are under way. */
  lemma ReplacedTranslationIsGone(s: State, steps: seq<Step>, t: nat, p: Pair, n: nat)
    requires Init(s) && Legal(s, steps) && t < N(s) && p in Run(s, steps).tlb[t]
    requires Returned(Run(s, steps), p, n)
    ensures Run(s, steps).tlb[t][p].ver >= n
  {
    InitInv(s);
    RunInv(s, steps);
    var r := Run(s, steps);
    assert EntryOk(r, t, p);
    assert !Debt(r, t, p, n);
  }

  /** With no shootdown of the pair in progress, every TLB agrees with the page table. */
  lemma QuiescentAgrees(s: State, steps: seq<Step>, t: nat, p: Pair)
    requires Init(s) && Legal(s, steps) && t < N(s) && p in Run(s, steps).tlb[t]
    requires forall c: nat :: c < N(s) && Run(s, steps).phase[c].Shooting() ==> PairOf(Run(s, steps).phase[c].g) != p
    ensures Run(s, steps).tlb[t][p].lo == Pte(Run(s, steps), Even(p))
    ensures Run(s, steps).tlb[t][p].hi == Pte(Run(s, steps), Odd(p))
  {
    Coherence(s, steps, t, p);
  }

  // ---------------------------------------------------------------------------
  // The new word arrives

  /** The word an entry has for page g of its pair. */
  function WordFor(g: Page, lo: nat, hi: nat): (w: nat) { if g.vpn % 2 == 0 then lo else hi }

  /** Since version n of its pair, page g has been w in the page table and in all that was fetched. */
  ghost predicate Holds(s: State, g: Page, n: nat, w: nat)
    requires Shape(s)
  {
    && n <= Ver(s, PairOf(g)) && Pte(s, g) == w
    && forall t: nat :: t < N(s) ==> HoldsOn(s, t, g, n, w)
  }

  ghost predicate HoldsOn(s: State, t: nat, g: Page, n: nat, w: nat)
    requires Shape(s) && t < N(s)
  {
    var p := PairOf(g);
    && (p in s.tlb[t] && s.tlb[t][p].ver >= n ==> WordFor(g, s.tlb[t][p].lo, s.tlb[t][p].hi) == w)
    && match s.phase[t]
       case ReadEven(q, lo, v) => q == p && v >= n && g.vpn % 2 == 0 ==> lo == w
       case ReadBoth(q, lo, hi, v) => q == p && v >= n ==> WordFor(g, lo, hi) == w
       case _ => true
  }

  lemma UpdateHolds(s: State, c: nat, g: Page, w: nat)
    requires Inv(s) && Enabled(s, Update(c, g, w))
    ensures Holds(Next(s, Update(c, g, w)), g, Ver(s, PairOf(g)) + 1, w)
  {
    var r, p, n := Next(s, Update(c, g, w)), PairOf(g), Ver(s, PairOf(g)) + 1;
    forall t: nat | t < N(s) ensures HoldsOn(r, t, g, n, w) {
      assert EntryOk(s, t, p) && PhaseOk(s, t);
    }
  }

  lemma StepHolds(s: State, x: Step, g: Page, n: nat, w: nat)
    requires Shape(s) && Enabled(s, x) && Holds(s, g, n, w) && !(x.Update? && x.g == g)
    ensures Holds(Next(s, x), g, n, w)
  {
    var r := Next(s, x);
    PairParts(PairOf(g), g);
    forall t: nat | t < N(s) ensures HoldsOn(r, t, g, n, w) {
      assert HoldsOn(s, t, g, n, w);
    }
  }

  lemma {:induction false} RunHolds(s: State, steps: seq<Step>, g: Page, n: nat, w: nat)
    requires Shape(s) && Legal(s, steps) && Holds(s, g, n, w)
    requires forall k :: 0 <= k < |steps| && steps[k].Update? ==> steps[k].g != g
    ensures Holds(Run(s, steps), g, n, w)
    decreases |steps|
  {
    hide Next, Enabled, Holds;
    if steps != [] {
      StepHolds(s, steps[0], g, n, w);
      RunHolds(Next(s, steps[0]), steps[1..], g, n, w);
    }
  }

  lemma ReturnedHolds(s: State, g: Page, n: nat, w: nat, t: nat)
    requires Inv(s) && Holds(s, g, n, w) && Returned(s, PairOf(g), n) && t < N(s) && PairOf(g) in s.tlb[t]
    ensures WordFor(g, s.tlb[t][PairOf(g)].lo, s.tlb[t][PairOf(g)].hi) == w
  {
    assert EntryOk(s, t, PairOf(g)) && !Debt(s, t, PairOf(g), n) && HoldsOn(s, t, g, n, w);
  }

  /** Once an update of page g has returned, and until the page is updated again, every CPU that
      translates g at all does so by the new word, even with updates of the other page of the pair
      under way. */
  lemma NewWordArrives(m: State, c: nat, g: Page, w: nat, after: seq<Step>, t: nat)
    requires Inv(m) && Enabled(m, Update(c, g, w)) && Legal(Next(m, Update(c, g, w)), after) && t < N(m)
    requires forall k :: 0 <= k < |after| && after[k].Update? ==> after[k].g != g
    ensures
      var r, p := Run(Next(m, Update(c, g, w)), after), PairOf(g);
      && Pte(r, g) == w
      && (Returned(r, p, Ver(m, p) + 1) && p in r.tlb[t] ==> WordFor(g, r.tlb[t][p].lo, r.tlb[t][p].hi) == w)
  {
    var n := Ver(m, PairOf(g)) + 1;
    UpdateHolds(m, c, g, w);
    StepInv(m, Update(c, g, w));
    hide Next, Enabled, Inv;
    var a := Next(m, Update(c, g, w));
    RunInv(a, after);
    RunHolds(a, after, g, n, w);
    var r := Run(a, after);
    if Returned(r, PairOf(g), n) && PairOf(g) in r.tlb[t] { ReturnedHolds(r, g, n, w, t); }
  }

  /** A refill that is not interrupted leaves the pair of the page table in the TLB. */
  lemma RefillFetches(s: State, c: nat, p: Pair)
    requires Shape(s) && Enabled(s, FetchEven(c, p))
    ensures
      var a := Next(s, FetchEven(c, p));
      Enabled(a, FetchOdd(c)) && Enabled(Next(a, FetchOdd(c)), Fill(c)) &&
      var r := Next(Next(a, FetchOdd(c)), Fill(c));
      && r.tlb == s.tlb[c := s.tlb[c][p := Entry(Pte(s, Even(p)), Pte(s, Odd(p)), Ver(s, p))]]
      && r.phase == s.phase && r.ipi == s.ipi && r.pt == s.pt
  {
    var r := Next(Next(Next(s, FetchEven(c, p)), FetchOdd(c)), Fill(c));
    assert r.tlb[c] == s.tlb[c][p := Entry(Pte(s, Even(p)), Pte(s, Odd(p)), Ver(s, p))];
  }
}
