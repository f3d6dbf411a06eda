/** An ASID goes from one env to another (asid_free and asid_alloc in kern/env.c).  TLB entries
    carry the ASID, so what matters is whether any TLB still has, or is about to get, a word of
    the earlier owner's page table when the later owner starts. */
module AsidReuse {
  import opened Tlb

  /** The page table of the ASID is empty, as env_free leaves it. */
  ghost predicate Emptied(s: State, a: nat) { forall g: Page :: g.asid == a ==> Tlb.Pte(s, g) == 0 }

  /** No page_insert or page_remove on the ASID is still shooting down what it replaced. */
  ghost predicate Settled(s: State, a: nat) {
    forall c :: 0 <= c < |s.phase| && s.phase[c].Shooting() ==> s.phase[c].g.asid != a
  }

  /** The words a run stores in page tables. */
  ghost function Written(steps: seq<Step>): (w: set<(Page, nat)>) {
    if steps == [] then {} else Stored(steps[0]) + Written(steps[1..])
  }

  function Stored(x: Step): (w: set<(Page, nat)>) { if x.Update? then {(x.g, x.pte)} else {} }

  predicate From(w: set<(Page, nat)>, g: Page, word: nat) { word == 0 || (g, word) in w }

  ghost predicate EntryFrom(w: set<(Page, nat)>, p: Pair, lo: nat, hi: nat) {
    From(w, Even(p), lo) && From(w, Odd(p), hi)
  }

  ghost predicate TlbFrom(s: State, a: nat, w: set<(Page, nat)>, t: nat)
    requires t < |s.tlb|
  {
    forall p :: p in s.tlb[t] && p.asid == a ==> EntryFrom(w, p, s.tlb[t][p].lo, s.tlb[t][p].hi)
  }

  ghost predicate PhaseFrom(s: State, a: nat, w: set<(Page, nat)>, t: nat)
    requires t < |s.phase|
  {
    match s.phase[t]
    case ReadEven(p, lo, _) => p.asid == a ==> From(w, Even(p), lo)
    case ReadBoth(p, lo, hi, _) => p.asid == a ==> EntryFrom(w, p, lo, hi)
    case _ => true
  }

  /** Every word of the ASID, in the page table, in a TLB or on its way there, is zero or in w. */
  ghost predicate AllFrom(s: State, a: nat, w: set<(Page, nat)>)
    requires Shape(s)
  {
    && (forall g: Page :: g.asid == a ==> From(w, g, Tlb.Pte(s, g)))
    && (forall t: nat :: t < N(s) ==> TlbFrom(s, a, w, t) && PhaseFrom(s, a, w, t))
  }

  /** With the page table empty and no shootdown of the ASID under way, no TLB has a word of the
      earlier owner and none is being fetched. */
  lemma NothingLeft(s: State, a: nat)
    requires Inv(s) && Emptied(s, a) && Settled(s, a)
    ensures AllFrom(s, a, {})
  {
    forall t: nat | t < N(s) ensures TlbFrom(s, a, {}, t) && PhaseFrom(s, a, {}, t) {
      forall p | p in s.tlb[t] && p.asid == a ensures EntryFrom({}, p, s.tlb[t][p].lo, s.tlb[t][p].hi) {
        assert EntryOk(s, t, p);
        NoDebt(s, a, t, p, Ver(s, p));
      }
      assert PhaseOk(s, t);
      if s.phase[t].Refilling() && s.phase[t].p.asid == a { NoDebt(s, a, t, s.phase[t].p, Ver(s, s.phase[t].p)); }
    }
  }

  lemma NoDebt(s: State, a: nat, t: nat, p: Pair, n: nat)
    requires Shape(s) && Settled(s, a) && p.asid == a
    ensures !Debt(s, t, p, n)
  {
  }

  lemma StepFrom(s: State, x: Step, a: nat, w: set<(Page, nat)>)
    requires Shape(s) && Enabled(s, x) && AllFrom(s, a, w)
    ensures AllFrom(Next(s, x), a, w + Stored(x))
  {
    var r, v := Next(s, x), w + Stored(x);
    forall t: nat | t < N(s) ensures TlbFrom(r, a, v, t) && PhaseFrom(r, a, v, t) {
      assert TlbFrom(s, a, w, t) && PhaseFrom(s, a, w, t);
    }
  }

  lemma {:induction false} RunFrom(s: State, steps: seq<Step>, a: nat, w: set<(Page, nat)>)
    requires Shape(s) && Legal(s, steps) && AllFrom(s, a, w)
    ensures AllFrom(Run(s, steps), a, w + Written(steps))
    decreases |steps|
  {
    if steps == [] {
      assert w + {} == w;
    } else {
      StepFrom(s, steps[0], a, w);
      RunFrom(Next(s, steps[0]), steps[1..], a, w + Stored(steps[0]));
      assert w + Stored(steps[0]) + Written(steps[1..]) == w + Written(steps);
    }
  }

  /** Reuse is sound: from a reachable state in which the ASID's page table is empty and nobody is
      shooting at it, every word any TLB holds for the ASID at any later moment is zero or was put
      into the page table since. */
  lemma NoWordOfEarlierOwner(s: State, before: seq<Step>, after: seq<Step>, a: nat, t: nat, p: Pair)
    requires Init(s) && Legal(s, before) && Emptied(Run(s, before), a) && Settled(Run(s, before), a)
    requires Legal(Run(s, before), after) && t < N(s) && p.asid == a
    requires p in Run(Run(s, before), after).tlb[t]
    ensures
      var e := Run(Run(s, before), after).tlb[t][p];
      && (e.lo == 0 || (Even(p), e.lo) in Written(after)) && (e.hi == 0 || (Odd(p), e.hi) in Written(after))
  {
    InitInv(s);
    RunInv(s, before);
    var m := Run(s, before);
    NothingLeft(m, a);
    RunFrom(m, after, a, {});
    assert {} + Written(after) == Written(after);
    assert TlbFrom(Run(m, after), a, Written(after), t);
  }

  /** Without the second condition it is not: the last page of the ASID is taken out by a CPU that
      has yet to shoot it down, the page table is empty, and another CPU still has the word. */
  lemma EmptyButNotSettled(s: State, c: nat, t: nat, g: Page)
    requires Inv(s) && Enabled(s, Update(c, g, 0)) && t < N(s)
    requires forall h: Page :: h.asid == g.asid && h != g ==> Tlb.Pte(s, h) == 0
    requires PairOf(g) in s.tlb[t]
    ensures
      var r := Next(s, Update(c, g, 0));
      && Inv(r) && Emptied(r, g.asid) && !Settled(r, g.asid)
      && PairOf(g) in r.tlb[t] && r.tlb[t][PairOf(g)] == s.tlb[t][PairOf(g)]
      && (s.tlb[t][PairOf(g)].lo != 0 || s.tlb[t][PairOf(g)].hi != 0 ==> !AllFrom(r, g.asid, {}))
  {
    StepInv(s, Update(c, g, 0));
    var r := Next(s, Update(c, g, 0));
    assert r.phase[c].Shooting() && r.phase[c].g == g;
    if AllFrom(r, g.asid, {}) { assert TlbFrom(r, g.asid, {}, t); }
  }
}
