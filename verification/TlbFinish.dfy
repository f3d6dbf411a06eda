/** An update that nobody disturbs comes to its end: the page table has the new word, no TLB has an
    older one, and the CPU is back where it was. */
module TlbFinish {
  import Ipi
  import IpiDeadlock
  import opened Tlb

  function Lifted(xs: seq<Ipi.Step>): (r: seq<Step>)
    ensures |r| == |xs| && forall k :: 0 <= k < |r| ==> r[k] == Step.Ipi(xs[k])
  {
    seq(|xs|, k requires 0 <= k < |xs| => Step.Ipi(xs[k]))
  }

  /** Nobody is in a refill or before its broadcast. */
  ghost predicate Calm(s: State) {
    forall t :: 0 <= t < |s.phase| ==> s.phase[t] == User || s.phase[t].Calling?
  }

  lemma LiftStep(s: State, x: Ipi.Step)
    requires Shape(s) && Calm(s) && Ipi.Enabled(s.ipi, x) && IpiDeadlock.Plain(x)
    ensures Enabled(s, Step.Ipi(x)) && Next(s, Step.Ipi(x)).ipi == Ipi.Next(s.ipi, x) && Calm(Next(s, Step.Ipi(x)))
    ensures Next(s, Step.Ipi(x)).pt == s.pt && Next(s, Step.Ipi(x)).ver == s.ver
  {
    hide Ipi.Next;
  }

  lemma {:induction false} LiftRun(s: State, xs: seq<Ipi.Step>)
    requires Shape(s) && Calm(s) && Ipi.Legal(s.ipi, xs) && forall x :: x in xs ==> IpiDeadlock.Plain(x)
    ensures Legal(s, Lifted(xs))
    ensures var r := Run(s, Lifted(xs)); r.ipi == Ipi.Run(s.ipi, xs) && Calm(r) && r.pt == s.pt && r.ver == s.ver
    decreases |xs|
  {
    hide Next, Enabled, Ipi.Next, Ipi.Enabled;
    if xs != [] {
      LiftStep(s, xs[0]);
      assert Lifted(xs)[1..] == Lifted(xs[1..]);
      LiftRun(Next(s, Step.Ipi(xs[0])), xs[1..]);
    }
  }

  /** Everyone is idle, but for c, which is at most in the pmap_lock section. */
  ghost predicate Resting(s: State, c: nat) {
    && Shape(s) && c < N(s) && c in s.ipi.ready
    && (forall t: nat :: t < N(s) ==> s.phase[t] == User && s.ipi.cpus[t].irq == Ipi.NoIrq && s.ipi.lock[t] == Ipi.Free)
    && (forall t: nat :: t < N(s) && t != c ==> s.ipi.cpus[t].pc == Ipi.Idle)
  }

  /** Release the lock, flush the own TLB, start the broadcast. */
  lemma Shoots(s: State, c: nat, g: Page, w: nat)
    requires Resting(s, c) && s.ipi.cpus[c].pc == Ipi.LeafHeld(PMAP_LOCK)
    ensures
      Enabled(s, Update(c, g, w)) && var a := Next(s, Update(c, g, w));
      Enabled(a, Step.Ipi(Ipi.Advance(c))) && var b := Next(a, Step.Ipi(Ipi.Advance(c)));
      Enabled(b, LocalFlush(c)) && var d := Next(b, LocalFlush(c));
      Enabled(d, Broadcast(c)) && var r := Next(d, Broadcast(c));
      && IpiDeadlock.Alone(r.ipi, c, 0) && Calm(r) && r.phase[c].Calling?
      && r.pt == s.pt[g := w] && Ver(r, PairOf(g)) == Ver(s, PairOf(g)) + 1
  {
  }

  /** The broadcast is run to its end. */
  lemma CallsHome(e: State, c: nat) returns (xs: seq<Step>)
    requires Inv(e) && Calm(e) && c < N(e) && IpiDeadlock.Alone(e.ipi, c, 0)
    ensures Legal(e, xs) && forall k :: 0 <= k < |xs| ==> xs[k].Ipi?
    ensures var r := Run(e, xs); Inv(r) && Calm(r) && N(r) == N(e) && r.pt == e.pt && r.ver == e.ver
    ensures forall t: nat :: t < N(e) ==> Run(e, xs).ipi.cpus[t].pc == Ipi.Idle
  {
    assert Shape(e);
    hide Next, Enabled, Ipi.Next, Ipi.Enabled, Inv;
    var ys := IpiDeadlock.CallFinishes(e.ipi, c, 0);
    LiftRun(e, ys);
    xs := Lifted(ys);
    RunInv(e, xs);
  }

  lemma ThreeInv(a: State, x: Step, y: Step, z: Step)
    requires Inv(a) && Enabled(a, x) && Enabled(Next(a, x), y) && Enabled(Next(Next(a, x), y), z)
    ensures Inv(Next(Next(Next(a, x), y), z))
  {
    StepInv(a, x);
    hide Inv, Next, Enabled;
    StepInv(Next(a, x), y);
    StepInv(Next(Next(a, x), y), z);
  }

  lemma FromCall(a: State, x: Step, y: Step, z: Step, c: nat, p: Pair, n: nat) returns (ys: seq<Step>)
    requires Shape(a) && Enabled(a, x) && Enabled(Next(a, x), y) && Enabled(Next(Next(a, x), y), z)
    requires !x.Update? && !y.Update? && !z.Update?
    requires
      var e := Next(Next(Next(a, x), y), z);
      Inv(e) && Calm(e) && c < N(e) && IpiDeadlock.Alone(e.ipi, c, 0) && n <= Ver(e, p)
    ensures Legal(a, ys) && forall k :: 0 <= k < |ys| ==> !ys[k].Update?
    ensures
      var r := Run(a, ys);
      && c < N(r) && r.pt == Next(Next(Next(a, x), y), z).pt && r.phase[c] == User && r.ipi.cpus[c].pc == Ipi.Idle
      && Returned(r, p, n)
  {
    hide Next, Enabled, Inv, Run, Legal, IpiDeadlock.Alone, Returned, Calm;
    var e := Next(Next(Next(a, x), y), z);
    var xs := CallsHome(e, c);
    Back(Run(e, xs), c, p, n);
    ThreeFirst(a, x, y, z, xs);
    ys := [x, y, z] + xs;
  }

  lemma AfterUpdate(s: State, c: nat, g: Page, w: nat) returns (ys: seq<Step>)
    requires Inv(s) && Resting(s, c) && s.ipi.cpus[c].pc == Ipi.LeafHeld(PMAP_LOCK)
    ensures Enabled(s, Update(c, g, w)) && Legal(Next(s, Update(c, g, w)), ys)
    ensures forall k :: 0 <= k < |ys| ==> !ys[k].Update?
    ensures
      var r := Run(Next(s, Update(c, g, w)), ys);
      && c < N(r) && r.pt == s.pt[g := w] && r.phase[c] == User && r.ipi.cpus[c].pc == Ipi.Idle
      && Returned(r, PairOf(g), Ver(s, PairOf(g)) + 1)
  {
    Shoots(s, c, g, w);
    StepInv(s, Update(c, g, w));
    hide Next, Enabled, Inv, Resting, Run, Legal, IpiDeadlock.Alone, Returned, Calm;
    var a := Next(s, Update(c, g, w));
    var x, y, z := Step.Ipi(Ipi.Advance(c)), LocalFlush(c), Broadcast(c);
    ThreeInv(a, x, y, z);
    ys := FromCall(a, x, y, z, c, PairOf(g), Ver(s, PairOf(g)) + 1);
  }

  /** The run, from any such state. */
  lemma UpdateFinishes(s: State, c: nat, g: Page, w: nat, t: nat) returns (ys: seq<Step>)
    requires Inv(s) && Resting(s, c) && s.ipi.cpus[c].pc == Ipi.LeafHeld(PMAP_LOCK) && t < N(s)
    ensures Enabled(s, Update(c, g, w)) && Legal(Next(s, Update(c, g, w)), ys)
    ensures
      var r := Run(Next(s, Update(c, g, w)), ys);
      && r.pt == s.pt[g := w] && r.phase[c] == User && r.ipi.cpus[c].pc == Ipi.Idle
      && Returned(r, PairOf(g), Ver(s, PairOf(g)) + 1)
      && (PairOf(g) in r.tlb[t] ==> WordFor(g, r.tlb[t][PairOf(g)].lo, r.tlb[t][PairOf(g)].hi) == w)
  {
    ys := AfterUpdate(s, c, g, w);
    hide Next, Enabled, Inv, Run, Legal;
    NewWordArrives(s, c, g, w, ys, t);
  }

  lemma ThreeFirst(a: State, x: Step, y: Step, z: Step, xs: seq<Step>)
    requires Shape(a) && Enabled(a, x) && Enabled(Next(a, x), y) && Enabled(Next(Next(a, x), y), z)
    requires Legal(Next(Next(Next(a, x), y), z), xs)
    ensures Legal(a, [x, y, z] + xs) && Run(a, [x, y, z] + xs) == Run(Next(Next(Next(a, x), y), z), xs)
  {
    hide Next, Enabled;
    var l := [x, y, z] + xs;
    var b := Next(a, x);
    var d := Next(b, y);
    assert l[1..] == [y, z] + xs && ([y, z] + xs)[1..] == [z] + xs && ([z] + xs)[1..] == xs;
    assert Legal(d, [z] + xs) && Run(d, [z] + xs) == Run(Next(d, z), xs);
    assert Legal(b, [y, z] + xs) && Run(b, [y, z] + xs) == Run(Next(d, z), xs);
  }

  /** With the call over, the broadcast is. */
  lemma Back(r: State, c: nat, p: Pair, n: nat)
    requires Inv(r) && Calm(r) && n <= Ver(r, p) && c < N(r)
    requires forall t: nat :: t < N(r) ==> r.ipi.cpus[t].pc == Ipi.Idle
    ensures r.phase[c] == User && Returned(r, p, n)
  {
    forall t: nat | t < N(r) ensures r.phase[t] == User { assert PhaseOk(r, t); }
  }
}
