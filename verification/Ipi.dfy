/** The inter-processor call of kern/smp.c as a machine over single memory accesses, for
    any number of CPUs.

    A caller takes the target's mailbox lock, clears its done flag, fills the mailbox,
    sets the pending word with a separate read and write, and polls the done flag while
    serving its own mailbox.  A target reads and clears its pending word (again two
    accesses), reads the mailbox, runs the function and sets done.  CPUs outside a call
    may also take one of the three leaf locks (pmap_lock, env_sched_lock, asid_lock). */
module Ipi {

  datatype Call = Call(fn: nat, arg0: nat, arg1: nat)

  /** Where a CPU is in smp_group_function_call; k is the target under way. */
  datatype Pc =
    | Idle
    | Loop(k: nat)
    | Acquire(k: nat)
    | ClearDone(k: nat)
    | PutFn(k: nat)
    | PutArg0(k: nat)
    | PutArg1(k: nat)
    | SendRead(k: nat)
    | SendWrite(k: nat, seen: bool)
    | Wait(k: nat)
    | ResetFn(k: nat)
    | Release(k: nat)
    | LeafSpin(l: nat)
    | LeafHeld(l: nat)
  {
    predicate HoldsMailbox() {
      ClearDone? || PutFn? || PutArg0? || PutArg1? || SendRead? || SendWrite? || Wait? || ResetFn? || Release?
    }
    predicate InCall() { Loop? || Acquire? || HoldsMailbox() }
  }

  /** Where a CPU is in handle_ipi_irq, once it has read a nonzero pending word. */
  datatype Irq =
    | NoIrq
    | ClearRead
    | ClearWrite(seen: bool)
    | GetFn
    | GetArg0(fn: nat)
    | GetArg1(fn: nat, arg0: nat)
    | Execute(call: Call)
    | SetDone

  /** call, found, early and ran are the call in progress: its function and arguments, the
      targets found ready so far, the CPUs ready when it began, and how often each CPU has
      run the function for it. */
  datatype Cpu = Cpu(pc: Pc, irq: Irq, call: Call, found: set<nat>, early: set<nat>, ran: seq<nat>)

  datatype Owner = Free | By(c: nat)

  datatype State = State(cpus: seq<Cpu>, ready: set<nat>, lock: seq<Owner>, done: seq<bool>,
                         pending: seq<bool>, box: seq<Call>, leaf: seq<Owner>)

  const NLEAF: nat := 3

  datatype Step =
    | Online(c: nat)
    | Start(c: nat, call: Call)
    | Leaf(c: nat, l: nat)
    | Advance(c: nat)
    | Poll(c: nat)
    | Serve(c: nat)

  function N(s: State): (r: nat) { |s.cpus| }

  predicate Shape(s: State) {
    && |s.lock| == |s.done| == |s.pending| == |s.box| == |s.cpus|
    && |s.leaf| == NLEAF
    && (forall c :: 0 <= c < |s.cpus| ==> |s.cpus[c].ran| == |s.cpus|)
  }

  /** After smp_init: CPU 0 ready, every done flag set, nothing pending, all locks free. */
  predicate Init(s: State) {
    && Shape(s)
    && 0 < N(s) && s.ready == {0}
    && (forall c :: 0 <= c < N(s) ==> s.cpus[c].pc == Idle && s.cpus[c].irq == NoIrq)
    && (forall t :: 0 <= t < N(s) ==> s.lock[t] == Free && s.done[t] && !s.pending[t])
    && (forall l :: 0 <= l < NLEAF ==> s.leaf[l] == Free)
  }

  predicate Enabled(s: State, st: Step)
    requires Shape(s)
  {
    && st.c < N(s)
    && (st.Online? <==> st.c !in s.ready)
    && match st
       case Online(c) => true
       case Start(c, call) => s.cpus[c].pc == Idle && s.cpus[c].irq == NoIrq && call.fn != 0
       case Leaf(c, l) => s.cpus[c].pc == Idle && s.cpus[c].irq == NoIrq && l < NLEAF
       case Advance(c) =>
         && s.cpus[c].pc != Idle && s.cpus[c].irq == NoIrq
         && (s.cpus[c].pc.LeafSpin? || s.cpus[c].pc.LeafHeld? ==> s.cpus[c].pc.l < NLEAF)
         && (s.cpus[c].pc.InCall() && !s.cpus[c].pc.Loop? ==> s.cpus[c].pc.k < N(s))
       case Poll(c) => (s.cpus[c].pc == Idle || s.cpus[c].pc.Wait?) && s.cpus[c].irq == NoIrq
       case Serve(c) => s.cpus[c].irq != NoIrq
  }

  function SetPc(s: State, c: nat, pc: Pc): (r: State)
    requires c < |s.cpus|
    ensures N(r) == N(s) && (Shape(s) ==> Shape(r))
  {
    s.(cpus := s.cpus[c := s.cpus[c].(pc := pc)])
  }

  function SetIrq(s: State, c: nat, irq: Irq): (r: State)
    requires c < |s.cpus|
    ensures N(r) == N(s) && (Shape(s) ==> Shape(r))
  {
    s.(cpus := s.cpus[c := s.cpus[c].(irq := irq)])
  }

  /** One access of smp_group_function_call (or of a leaf-lock section) on CPU c. */
  function AdvanceCpu(s: State, c: nat): (r: State)
    requires Shape(s) && Enabled(s, Advance(c))
    ensures Shape(r) && N(r) == N(s)
  {
    var u := s.cpus[c];
    match u.pc
    case Loop(k) =>
      if k >= N(s) then SetPc(s, c, Idle)
      else if k == c || k !in s.ready then SetPc(s, c, Loop(k + 1))
      else s.(cpus := s.cpus[c := u.(pc := Acquire(k), found := u.found + {k})])
    case Acquire(k) =>
      if s.lock[k] == Free then SetPc(s.(lock := s.lock[k := By(c)]), c, ClearDone(k)) else s
    case ClearDone(k) => SetPc(s.(done := s.done[k := false]), c, PutFn(k))
    case PutFn(k) => SetPc(s.(box := s.box[k := s.box[k].(fn := u.call.fn)]), c, PutArg0(k))
    case PutArg0(k) => SetPc(s.(box := s.box[k := s.box[k].(arg0 := u.call.arg0)]), c, PutArg1(k))
    case PutArg1(k) => SetPc(s.(box := s.box[k := s.box[k].(arg1 := u.call.arg1)]), c, SendRead(k))
    case SendRead(k) => SetPc(s, c, SendWrite(k, s.pending[k]))
    case SendWrite(k, seen) => SetPc(s.(pending := s.pending[k := true]), c, Wait(k))
    case Wait(k) => if s.done[k] then SetPc(s, c, ResetFn(k)) else s
    case ResetFn(k) => SetPc(s.(box := s.box[k := s.box[k].(fn := 0)]), c, Release(k))
    case Release(k) => SetPc(s.(lock := s.lock[k := Free]), c, Loop(k + 1))
    case LeafSpin(l) =>
      if s.leaf[l] == Free then SetPc(s.(leaf := s.leaf[l := By(c)]), c, LeafHeld(l)) else s
    case LeafHeld(l) => SetPc(s.(leaf := s.leaf[l := Free]), c, Idle)
  }

  /** The function runs on CPU t; whoever holds t's mailbox and asked for it counts the run. */
  function RunOn(s: State, t: nat, call: Call): (r: State)
    requires Shape(s) && t < N(s)
    ensures Shape(r) && N(r) == N(s)
  {
    if call.fn != 0 && s.lock[t].By? && s.lock[t].c < N(s) && s.cpus[s.lock[t].c].call == call then
      var h := s.lock[t].c;
      s.(cpus := s.cpus[h := s.cpus[h].(ran := s.cpus[h].ran[t := s.cpus[h].ran[t] + 1])])
    else s
  }

  /** One access of handle_ipi_irq on CPU c. */
  function ServeCpu(s: State, c: nat): (r: State)
    requires Shape(s) && Enabled(s, Serve(c))
    ensures Shape(r) && N(r) == N(s)
  {
    match s.cpus[c].irq
    case ClearRead => SetIrq(s, c, ClearWrite(s.pending[c]))
    case ClearWrite(seen) => SetIrq(s.(pending := s.pending[c := false]), c, GetFn)
    case GetFn => SetIrq(s, c, GetArg0(s.box[c].fn))
    case GetArg0(fn) => SetIrq(s, c, GetArg1(fn, s.box[c].arg0))
    case GetArg1(fn, arg0) => SetIrq(s, c, Execute(Call(fn, arg0, s.box[c].arg1)))
    case Execute(call) => SetIrq(RunOn(s, c, call), c, SetDone)
    case SetDone => SetIrq(s.(done := s.done[c := true]), c, NoIrq)
  }

  function Next(s: State, st: Step): (r: State)
    requires Shape(s) && Enabled(s, st)
    ensures Shape(r) && N(r) == N(s)
  {
    match st
    case Online(c) => s.(ready := s.ready + {c})
    case Start(c, call) =>
      s.(cpus := s.cpus[c := s.cpus[c].(pc := Loop(0), call := call, found := {}, early := s.ready,
                                        ran := seq(N(s), _ => 0))])
    case Leaf(c, l) => SetPc(s, c, LeafSpin(l))
    case Advance(c) => AdvanceCpu(s, c)
    case Poll(c) => if s.pending[c] then SetIrq(s, c, ClearRead) else s
    case Serve(c) => ServeCpu(s, c)
  }

  // ---------------------------------------------------------------------------
  // The invariant

  /** Target t while nobody holds its mailbox. */
  ghost predicate Quiet(s: State, t: nat)
    requires Shape(s) && t < N(s)
  {
    s.done[t] && !s.pending[t] && s.cpus[t].irq == NoIrq
  }

  /** What target t has done with the call its mailbox holder waits for. */
  ghost predicate Waited(s: State, t: nat, call: Call, ran: nat)
    requires Shape(s) && t < N(s)
  {
    s.box[t] == call &&
    match s.cpus[t].irq
    case NoIrq => if s.pending[t] then !s.done[t] && ran == 0 else s.done[t] && ran == 1
    case ClearRead => s.pending[t] && !s.done[t] && ran == 0
    case ClearWrite(_) => s.pending[t] && !s.done[t] && ran == 0
    case GetFn => !s.pending[t] && !s.done[t] && ran == 0
    case GetArg0(fn) => !s.pending[t] && !s.done[t] && ran == 0 && fn == call.fn
    case GetArg1(fn, a) => !s.pending[t] && !s.done[t] && ran == 0 && fn == call.fn && a == call.arg0
    case Execute(x) => !s.pending[t] && !s.done[t] && ran == 0 && x == call
    case SetDone => !s.pending[t] && !s.done[t] && ran == 1
  }

  /** Target t against the position of the CPU h that holds its mailbox. */
  ghost predicate Served(s: State, t: nat, h: nat)
    requires Shape(s) && t < N(s) && h < N(s)
  {
    var u := s.cpus[h];
    match u.pc
    case ClearDone(_) => Quiet(s, t) && u.ran[t] == 0
    case PutFn(_) => !s.done[t] && !s.pending[t] && s.cpus[t].irq == NoIrq && u.ran[t] == 0
    case PutArg0(_) =>
      !s.done[t] && !s.pending[t] && s.cpus[t].irq == NoIrq && u.ran[t] == 0 && s.box[t].fn == u.call.fn
    case PutArg1(_) => !s.done[t] && !s.pending[t] && s.cpus[t].irq == NoIrq && u.ran[t] == 0
                       && s.box[t].fn == u.call.fn && s.box[t].arg0 == u.call.arg0
    case SendRead(_) => !s.done[t] && !s.pending[t] && s.cpus[t].irq == NoIrq && u.ran[t] == 0 && s.box[t] == u.call
    case SendWrite(_, seen) =>
      !s.done[t] && !s.pending[t] && s.cpus[t].irq == NoIrq && u.ran[t] == 0 && s.box[t] == u.call && !seen
    case Wait(_) => Waited(s, t, u.call, u.ran[t])
    case ResetFn(_) => Quiet(s, t) && u.ran[t] == 1
    case Release(_) => Quiet(s, t) && u.ran[t] == 1
    case _ => false
  }

  ghost predicate TargetOk(s: State, t: nat)
    requires Shape(s) && t < N(s)
  {
    match s.lock[t]
    case Free => Quiet(s, t)
    case By(h) => h < N(s) && h != t && s.cpus[h].pc.HoldsMailbox() && s.cpus[h].pc.k == t && Served(s, t, h)
  }

  /** Targets before the current one are dealt with, later ones untouched. */
  ghost predicate Progress(s: State, c: nat, t: nat)
    requires Shape(s) && c < N(s) && t < N(s) && s.cpus[c].pc.InCall()
  {
    var u := s.cpus[c];
    var k := u.pc.k;
    && (t < k ==> u.ran[t] == (if t in u.found then 1 else 0))
    && (t < k && t != c && t in u.early ==> t in u.found)
    && (t > k ==> u.ran[t] == 0 && t !in u.found)
    && (t == k && u.pc.Loop? ==> u.ran[t] == 0 && t !in u.found)
    && (t == k && !u.pc.Loop? ==> t in u.found)
    && (t == k && u.pc.Acquire? ==> u.ran[t] == 0)
  }

  ghost predicate CpuOk(s: State, c: nat)
    requires Shape(s) && c < N(s)
  {
    var u := s.cpus[c];
    && (u.pc.HoldsMailbox() ==> u.pc.k < N(s) && s.lock[u.pc.k] == By(c))
    && (u.pc.InCall() ==>
          && u.call.fn != 0 && c !in u.found && u.early <= s.ready
          && (forall t: nat :: t < N(s) ==> Progress(s, c, t)))
    && (u.pc.Loop? ==> u.pc.k <= N(s))
    && (u.pc.Acquire? ==> u.pc.k < N(s) && u.pc.k != c)
    && (u.irq != NoIrq ==> u.pc == Idle || u.pc.Wait?)
    && (u.pc.LeafHeld? ==> u.pc.l < NLEAF && s.leaf[u.pc.l] == By(c))
    && (u.pc.LeafSpin? ==> u.pc.l < NLEAF)
    && (c !in s.ready ==> u.pc == Idle && u.irq == NoIrq)
  }

  ghost predicate LeafOk(s: State, l: nat)
    requires Shape(s) && l < NLEAF
  {
    s.leaf[l].By? ==> s.leaf[l].c < N(s) && s.cpus[s.leaf[l].c].pc == LeafHeld(l)
  }

  ghost predicate Inv(s: State) {
    && Shape(s)
    && (forall t: nat :: t < N(s) ==> TargetOk(s, t))
    && (forall c: nat :: c < N(s) ==> CpuOk(s, c))
    && (forall l: nat :: l < NLEAF ==> LeafOk(s, l))
  }

  lemma InitInv(s: State)
    requires Init(s)
    ensures Inv(s)
  {
  }

  // ---------------------------------------------------------------------------
  // Every step keeps it

  /** A target none of whose words changed, nor its holder. */
  lemma FrameTarget(s: State, r: State, t: nat)
    requires Shape(s) && Shape(r) && N(r) == N(s) && t < N(s) && TargetOk(s, t)
    requires r.lock[t] == s.lock[t] && r.done[t] == s.done[t] && r.pending[t] == s.pending[t]
    requires r.box[t] == s.box[t] && r.cpus[t].irq == s.cpus[t].irq
    requires s.lock[t].By? ==> r.cpus[s.lock[t].c] == s.cpus[s.lock[t].c]
    ensures TargetOk(r, t)
  {
  }

  /** A CPU whose own record and mailbox ownership did not change. */
  lemma FrameCpu(s: State, r: State, d: nat)
    requires Shape(s) && Shape(r) && N(r) == N(s) && d < N(s) && CpuOk(s, d)
    requires r.cpus[d] == s.cpus[d] && r.ready >= s.ready
    requires s.cpus[d].pc.HoldsMailbox() ==> r.lock[s.cpus[d].pc.k] == s.lock[s.cpus[d].pc.k]
    requires s.cpus[d].pc.LeafHeld? ==> r.leaf[s.cpus[d].pc.l] == s.leaf[s.cpus[d].pc.l]
    ensures CpuOk(r, d)
  {
    if r.cpus[d].pc.InCall() {
      forall t: nat | t < N(s) ensures Progress(r, d, t) {
        assert Progress(s, d, t);
      }
    }
  }

  /** The holder's own step, seen from its target. */
  lemma AdvanceHeld(s: State, c: nat)
    requires Inv(s) && Enabled(s, Advance(c)) && s.cpus[c].pc.HoldsMailbox()
    ensures TargetOk(AdvanceCpu(s, c), s.cpus[c].pc.k)
  {
    var k := s.cpus[c].pc.k;
    assert CpuOk(s, c) && TargetOk(s, k);
    var r := AdvanceCpu(s, c);
    assert r.cpus[k].irq == s.cpus[k].irq;
  }

  lemma AdvanceTarget(s: State, c: nat, t: nat)
    requires Inv(s) && Enabled(s, Advance(c)) && t < N(s)
    ensures TargetOk(AdvanceCpu(s, c), t)
  {
    var u := s.cpus[c];
    var r := AdvanceCpu(s, c);
    assert CpuOk(s, c) && TargetOk(s, t);
    if u.pc.HoldsMailbox() && u.pc.k == t {
      AdvanceHeld(s, c);
    } else if u.pc.Acquire? && u.pc.k == t && s.lock[t] == Free {
      assert Progress(s, c, t);
    } else {
      assert r.cpus[t].irq == s.cpus[t].irq;
      FrameTarget(s, r, t);
    }
  }

  /** A CPU's own step, seen from its own progress. */
  lemma AdvanceSelf(s: State, c: nat)
    requires Inv(s) && Enabled(s, Advance(c))
    ensures CpuOk(AdvanceCpu(s, c), c)
  {
    var u := s.cpus[c];
    var r := AdvanceCpu(s, c);
    CpuAt(s, c);
    if u.pc.InCall() && u.pc.k < N(s) { TargetAt(s, u.pc.k); }
    hide Inv, Waited;
    if r.cpus[c].pc.InCall() {
      forall t: nat | t < N(s) ensures Progress(r, c, t) {
        assert Progress(s, c, t);
      }
    }
  }

  lemma AdvanceCpuOk(s: State, c: nat, d: nat)
    requires Inv(s) && Enabled(s, Advance(c)) && d < N(s)
    ensures CpuOk(AdvanceCpu(s, c), d)
  {
    if d == c {
      AdvanceSelf(s, c);
    } else {
      var r := AdvanceCpu(s, c);
      assert CpuOk(s, c) && CpuOk(s, d);
      FrameCpu(s, r, d);
    }
  }

  lemma AdvanceLeaf(s: State, c: nat, l: nat)
    requires Inv(s) && Enabled(s, Advance(c)) && l < NLEAF
    ensures LeafOk(AdvanceCpu(s, c), l)
  {
    assert CpuOk(s, c) && LeafOk(s, l);
  }

  /** A CPU serving its mailbox serves a call somebody waits for, with that call's own
      function and arguments. */
  lemma ServesAWaiter(s: State, c: nat)
    requires Inv(s) && c < N(s) && s.cpus[c].irq != NoIrq
    ensures s.lock[c].By? && s.lock[c].c < N(s) && s.lock[c].c != c
    ensures s.cpus[s.lock[c].c].pc == Wait(c)
    ensures Waited(s, c, s.cpus[s.lock[c].c].call, s.cpus[s.lock[c].c].ran[c])
    ensures s.cpus[s.lock[c].c].call.fn != 0
  {
    assert TargetOk(s, c);
    assert CpuOk(s, s.lock[c].c);
  }

  lemma ServeTarget(s: State, c: nat, t: nat)
    requires Inv(s) && Enabled(s, Serve(c)) && t < N(s)
    ensures TargetOk(ServeCpu(s, c), t)
  {
    ServesAWaiter(s, c);
    var r := ServeCpu(s, c);
    assert TargetOk(s, t);
    if t != c {
      if s.lock[t] == By(s.lock[c].c) { assert false; }
      if s.lock[t] == By(c) {
        ServeSelfHolds(s, c, t);
      } else {
        FrameTarget(s, r, t);
      }
    }
  }

  /** A CPU that serves while it waits for t keeps waiting for t. */
  lemma ServeSelfHolds(s: State, c: nat, t: nat)
    requires Inv(s) && Enabled(s, Serve(c)) && t < N(s) && t != c && s.lock[t] == By(c)
    ensures TargetOk(ServeCpu(s, c), t)
  {
    ServesAWaiter(s, c);
    assert TargetOk(s, t) && CpuOk(s, c);
    var r := ServeCpu(s, c);
    assert r.cpus[t].irq == s.cpus[t].irq;
    assert r.cpus[c].pc == s.cpus[c].pc && r.cpus[c].call == s.cpus[c].call && r.cpus[c].ran == s.cpus[c].ran;
  }

  lemma TargetAt(s: State, t: nat)
    requires Inv(s) && t < N(s)
    ensures TargetOk(s, t)
  {
  }

  lemma CpuAt(s: State, c: nat)
    requires Inv(s) && c < N(s)
    ensures CpuOk(s, c)
  {
  }

  lemma ServeCpuOk(s: State, c: nat, d: nat)
    requires Inv(s) && Enabled(s, Serve(c)) && d < N(s)
    ensures CpuOk(ServeCpu(s, c), d)
  {
    ServesAWaiter(s, c);
    CpuAt(s, d);
    hide Inv, Waited, TargetOk;
    var r := ServeCpu(s, c);
    if d != c && d != s.lock[c].c {
      hide CpuOk;
      FrameCpu(s, r, d);
    } else if r.cpus[d].pc.InCall() {
      forall t: nat | t < N(s) ensures Progress(r, d, t) {
        assert Progress(s, d, t);
      }
    }
  }

  lemma OtherTarget(s: State, st: Step, t: nat)
    requires Inv(s) && Enabled(s, st) && !st.Advance? && !st.Serve? && t < N(s)
    ensures TargetOk(Next(s, st), t)
  {
    TargetAt(s, t);
    TargetAt(s, st.c);
    CpuAt(s, st.c);
    hide Inv;
  }

  lemma OtherCpu(s: State, st: Step, d: nat)
    requires Inv(s) && Enabled(s, st) && !st.Advance? && !st.Serve? && d < N(s)
    ensures CpuOk(Next(s, st), d)
  {
    CpuAt(s, d);
    CpuAt(s, st.c);
    hide Inv;
    var r := Next(s, st);
    if r.cpus[d].pc.InCall() {
      forall t: nat | t < N(s) ensures Progress(r, d, t) {
        if s.cpus[d].pc.InCall() { assert Progress(s, d, t); }
      }
    }
  }

  lemma OtherSteps(s: State, st: Step)
    requires Inv(s) && Enabled(s, st) && !st.Advance? && !st.Serve?
    ensures Inv(Next(s, st))
  {
    var r := Next(s, st);
    forall l: nat | l < NLEAF ensures LeafOk(r, l) {
      assert LeafOk(s, l) && CpuOk(s, st.c);
    }
    forall t: nat | t < N(s) ensures TargetOk(r, t) { OtherTarget(s, st, t); }
    forall d: nat | d < N(s) ensures CpuOk(r, d) { OtherCpu(s, st, d); }
    hide TargetOk, CpuOk, LeafOk;
  }

  lemma StepInv(s: State, st: Step)
    requires Inv(s) && Enabled(s, st)
    ensures Inv(Next(s, st))
  {
    hide TargetOk, CpuOk, LeafOk, AdvanceCpu, ServeCpu;
    var r := Next(s, st);
    match st
    case Advance(c) =>
      forall t: nat | t < N(s) ensures TargetOk(r, t) { AdvanceTarget(s, c, t); }
      forall d: nat | d < N(s) ensures CpuOk(r, d) { AdvanceCpuOk(s, c, d); }
      forall l: nat | l < NLEAF ensures LeafOk(r, l) { AdvanceLeaf(s, c, l); }
    case Serve(c) =>
      forall t: nat | t < N(s) ensures TargetOk(r, t) { ServeTarget(s, c, t); }
      forall d: nat | d < N(s) ensures CpuOk(r, d) { ServeCpuOk(s, c, d); }
      forall l: nat | l < NLEAF ensures LeafOk(r, l) { ServeLeaf(s, c, l); }
    case _ => OtherSteps(s, st);
  }

  lemma ServeLeaf(s: State, c: nat, l: nat)
    requires Inv(s) && Enabled(s, Serve(c)) && l < NLEAF
    ensures LeafOk(ServeCpu(s, c), l)
  {
    assert CpuOk(s, c) && LeafOk(s, l);
  }

  // ---------------------------------------------------------------------------
  // Runs

  predicate Legal(s: State, steps: seq<Step>)
    requires Shape(s)
    decreases |steps|
  {
    steps == [] || (Enabled(s, steps[0]) && Legal(Next(s, steps[0]), steps[1..]))
  }

  function Run(s: State, steps: seq<Step>): (r: State)
    requires Shape(s) && Legal(s, steps)
    ensures Shape(r) && N(r) == N(s)
    decreases |steps|
  {
    if steps == [] then s else Run(Next(s, steps[0]), steps[1..])
  }

  lemma {:induction false} RunInv(s: State, steps: seq<Step>)
    requires Inv(s) && Legal(s, steps)
    ensures Inv(Run(s, steps))
    decreases |steps|
  {
    if steps != [] {
      StepInv(s, steps[0]);
      RunInv(Next(s, steps[0]), steps[1..]);
    }
  }

  /** Exactly once, for any number of CPUs and any interleaving: when a CPU reaches the loop
      head for target k, each earlier target it found ready has run the function exactly once
      for this call, every CPU that was ready when the call began was found ready, and no
      other CPU has run it.  At k == N the call is about to return. */
  lemma ExactlyOnce(s: State, steps: seq<Step>, c: nat, t: nat)
    requires Init(s) && Legal(s, steps) && c < N(s) && t < N(s)
    requires Run(s, steps).cpus[c].pc.Loop?
    ensures
      var r := Run(s, steps);
      var u := r.cpus[c];
      && u.pc.k <= N(s)
      && u.ran[t] == (if t < u.pc.k && t in u.found then 1 else 0)
      && (t < u.pc.k && t != c && t in u.early ==> t in u.found)
      && (t in u.found ==> t != c && t < u.pc.k)
  {
    InitInv(s);
    RunInv(s, steps);
    var r := Run(s, steps);
    assert CpuOk(r, c) && Progress(r, c, t);
  }

  /** No run of a handler is spurious: whatever a CPU is about to execute is the call its
      mailbox holder is waiting for, not yet executed there. */
  lemma ExecutesOnlyTheWaitersCall(s: State, steps: seq<Step>, t: nat)
    requires Init(s) && Legal(s, steps) && t < N(s)
    requires Run(s, steps).cpus[t].irq.Execute?
    ensures
      var r := Run(s, steps);
      && r.lock[t].By? && r.lock[t].c < N(s)
      && r.cpus[r.lock[t].c].pc == Wait(t)
      && r.cpus[t].irq.call == r.cpus[r.lock[t].c].call
      && r.cpus[r.lock[t].c].ran[t] == 0
  {
    InitInv(s);
    RunInv(s, steps);
    ServesAWaiter(Run(s, steps), t);
  }

  /** The two-access set of a pending word never overlaps the two-access clear. */
  lemma SetAndClearApart(s: State, steps: seq<Step>, c: nat, t: nat)
    requires Init(s) && Legal(s, steps) && c < N(s) && t < N(s)
    requires Run(s, steps).cpus[c].pc.SendRead? || Run(s, steps).cpus[c].pc.SendWrite?
    requires Run(s, steps).cpus[c].pc.k == t
    ensures Run(s, steps).cpus[t].irq == NoIrq && !Run(s, steps).pending[t]
    ensures forall d: nat :: d < N(s) && d != c && Run(s, steps).cpus[d].pc.HoldsMailbox() ==>
              Run(s, steps).cpus[d].pc.k != t
  {
    InitInv(s);
    RunInv(s, steps);
    var r := Run(s, steps);
    assert CpuOk(r, c) && TargetOk(r, t);
    forall d: nat | d < N(s) && d != c && r.cpus[d].pc.HoldsMailbox() ensures r.cpus[d].pc.k != t {
      assert CpuOk(r, d);
    }
  }

  // ---------------------------------------------------------------------------
  // Deadlock

  /** CPU c can do nothing but spin: its lock is taken, or the target it waits for has not
      answered and its own mailbox is empty. */
  predicate Blocked(s: State, c: nat)
    requires Shape(s) && c < N(s)
  {
    && s.cpus[c].irq == NoIrq
    && match s.cpus[c].pc
       case Acquire(k) => k < N(s) && s.lock[k] != Free
       case Wait(k) => k < N(s) && !s.done[k] && !s.pending[c]
       case LeafSpin(l) => l < NLEAF && s.leaf[l] != Free
       case _ => false
  }

  /** Whoever holds the leaf lock a CPU spins on is running. */
  lemma LeafHolderRuns(s: State, c: nat)
    requires Inv(s) && c < N(s) && Blocked(s, c) && s.cpus[c].pc.LeafSpin?
    ensures s.leaf[s.cpus[c].pc.l].By? && s.leaf[s.cpus[c].pc.l].c < N(s)
    ensures !Blocked(s, s.leaf[s.cpus[c].pc.l].c)
  {
    assert CpuOk(s, c) && LeafOk(s, s.cpus[c].pc.l);
  }

  /** Whoever holds the mailbox lock a CPU spins on runs, or waits for that mailbox's CPU. */
  lemma MailboxHolder(s: State, c: nat)
    requires Inv(s) && c < N(s) && Blocked(s, c) && s.cpus[c].pc.Acquire?
    ensures
      var k := s.cpus[c].pc.k;
      && k < N(s) && k != c && s.lock[k].By? && s.lock[k].c < N(s)
      && (!Blocked(s, s.lock[k].c) || s.cpus[s.lock[k].c].pc == Wait(k))
  {
    assert CpuOk(s, c) && TargetOk(s, s.cpus[c].pc.k);
  }

  /** The CPU a blocked waiter waits for runs, or spins on a lock. */
  lemma WaitTarget(s: State, c: nat)
    requires Inv(s) && c < N(s) && Blocked(s, c) && s.cpus[c].pc.Wait?
    ensures
      var k := s.cpus[c].pc.k;
      && k < N(s) && k != c && s.lock[k] == By(c)
      && (!Blocked(s, k) || s.cpus[k].pc.Acquire? || s.cpus[k].pc.LeafSpin?)
  {
    assert CpuOk(s, c) && TargetOk(s, s.cpus[c].pc.k);
  }

  /** CPU d has what a blocked c waits for: the lock, or the answer. */
  predicate WaitsFor(s: State, c: nat, d: nat)
    requires Shape(s) && c < N(s) && Blocked(s, c)
  {
    match s.cpus[c].pc
    case Acquire(k) => s.lock[k] == By(d)
    case Wait(k) => k == d
    case LeafSpin(l) => s.leaf[l] == By(d)
    case _ => false
  }

  /** Everyone in ch is blocked and waits for the next, except the last, who is not blocked. */
  predicate EndsAtRunner(s: State, ch: seq<nat>)
    requires Shape(s)
  {
    && ch != [] && ch[0] < N(s)
    && if Blocked(s, ch[0]) then |ch| > 1 && WaitsFor(s, ch[0], ch[1]) && EndsAtRunner(s, ch[1..]) else |ch| == 1
  }

  lemma ChainGrows(s: State, c: nat, ch: seq<nat>)
    requires Shape(s) && c < N(s) && Blocked(s, c) && EndsAtRunner(s, ch) && WaitsFor(s, c, ch[0])
    ensures EndsAtRunner(s, [c] + ch)
  {
    assert ([c] + ch)[1..] == ch;
  }

  /** From a blocked waiter w, two more links lead to a CPU that runs or to a fourth CPU. */
  lemma RunnerBehindWaiter(s: State, w: nat) returns (ch: seq<nat>)
    requires Inv(s) && N(s) < 4 && w < N(s) && Blocked(s, w) && s.cpus[w].pc.Wait?
    ensures EndsAtRunner(s, ch) && ch[0] == w && |ch| <= 3
  {
    WaitTarget(s, w);
    var k := s.cpus[w].pc.k;
    ch := [k];
    if Blocked(s, k) {
      var d := RunnerBehindSpinner(s, w, k);
      ChainGrows(s, k, [d]);
      ch := [k, d];
      assert [k] + [d] == ch;
    }
    ChainGrows(s, w, ch);
    ch := [w] + ch;
  }

  /** The target of a waiter that spins on a lock itself spins on a running CPU. */
  lemma RunnerBehindSpinner(s: State, w: nat, k: nat) returns (d: nat)
    requires Inv(s) && N(s) < 4 && w < N(s) && Blocked(s, w) && s.cpus[w].pc == Wait(k)
    requires k < N(s) && Blocked(s, k)
    ensures d < N(s) && !Blocked(s, d) && WaitsFor(s, k, d)
  {
    WaitTarget(s, w);
    if s.cpus[k].pc.LeafSpin? {
      LeafHolderRuns(s, k);
      return s.leaf[s.cpus[k].pc.l].c;
    }
    MailboxHolder(s, k);
    var m := s.cpus[k].pc.k;
    d := s.lock[m].c;
    if Blocked(s, d) {
      WaitTarget(s, d);
      assert false;
    }
  }

  /** Nobody waits for ever on others that wait: with fewer than four CPUs (the source has two), in
      every reachable state each CPU, blocked on a mailbox lock, a done flag or a leaf lock or not,
      waits along a chain that ends at a CPU that is not blocked. */
  lemma NoDeadlock(s: State, steps: seq<Step>, c: nat) returns (ch: seq<nat>)
    requires Init(s) && Legal(s, steps) && N(s) < 4 && c < N(s)
    ensures EndsAtRunner(Run(s, steps), ch) && ch[0] == c && |ch| <= 4
  {
    InitInv(s);
    RunInv(s, steps);
    ch := ChainFrom(Run(s, steps), c);
  }

  lemma ChainFrom(s: State, c: nat) returns (ch: seq<nat>)
    requires Inv(s) && c < N(s) < 4
    ensures EndsAtRunner(s, ch) && ch[0] == c && |ch| <= 4
  {
    if !Blocked(s, c) { return [c]; }
    match s.cpus[c].pc
    case Wait(_) => ch := RunnerBehindWaiter(s, c);
    case Acquire(k) =>
      MailboxHolder(s, c);
      var h := s.lock[k].c;
      ch := [h];
      if Blocked(s, h) { ch := RunnerBehindWaiter(s, h); }
      ChainGrows(s, c, ch);
      ch := [c] + ch;
    case LeafSpin(l) =>
      LeafHolderRuns(s, c);
      ChainGrows(s, c, [s.leaf[l].c]);
      ch := [c] + [s.leaf[l].c];
  }
}
