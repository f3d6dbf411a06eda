/** Why NoDeadlock stops at three CPUs: a run of four in which all end up blocked. */
module IpiDeadlock {
  import opened Ipi

  lemma {:induction false} RunOn(s: State, a: seq<Step>, b: seq<Step>)
    requires Shape(s) && Legal(s, a) && Legal(Run(s, a), b)
    ensures Legal(s, a + b) && Run(s, a + b) == Run(Run(s, a), b)
    decreases |a|
  {
    hide Enabled, Next;
    if a == [] {
      assert a + b == b;
    } else {
      RunOn(Next(s, a[0]), a[1..], b);
      assert (a + b)[0] == a[0] && (a + b)[1..] == a[1..] + b;
    }
  }

  lemma RunOne(s: State, x: Step)
    requires Shape(s) && Enabled(s, x)
    ensures Legal(s, [x]) && Run(s, [x]) == Next(s, x)
  {
    hide Enabled, Next;
    assert [x][1..] == [];
    assert Legal(Next(s, x), []) && Run(Next(s, x), []) == Next(s, x);
  }

  lemma RunTwo(s: State, x: Step, y: Step)
    requires Shape(s) && Enabled(s, x) && Enabled(Next(s, x), y)
    ensures Legal(s, [x, y]) && Run(s, [x, y]) == Next(Next(s, x), y)
  {
    hide Enabled, Next;
    RunOne(s, x);
    RunOne(Next(s, x), y);
    RunOn(s, [x], [y]);
    assert [x] + [y] == [x, y];
  }

  lemma RunFour(s: State, w: Step, x: Step, y: Step, z: Step)
    requires Shape(s) && Enabled(s, w) && Enabled(Next(s, w), x)
    requires Enabled(Next(Next(s, w), x), y) && Enabled(Next(Next(Next(s, w), x), y), z)
    ensures Legal(s, [w, x, y, z]) && Run(s, [w, x, y, z]) == Next(Next(Next(Next(s, w), x), y), z)
  {
    hide Enabled, Next;
    RunTwo(s, w, x);
    RunTwo(Next(Next(s, w), x), y, z);
    RunOn(s, [w, x], [y, z]);
    assert [w, x] + [y, z] == [w, x, y, z];
  }

  // ---------------------------------------------------------------------------
  // The parts of a call

  /** After a caller c at the head of target k has sent its call and waits. */
  function Sent(s: State, c: nat, k: nat): (r: State)
    requires Shape(s) && c < N(s) && k < N(s)
  {
    var u := s.cpus[c];
    State(s.cpus[c := u.(pc := Wait(k), found := u.found + {k})], s.ready, s.lock[k := By(c)], s.done[k := false],
          s.pending[k := true], s.box[k := u.call], s.leaf)
  }

  ghost predicate CanSend(s: State, c: nat, k: nat) {
    && Shape(s) && c < N(s) && k < N(s) && c != k && c in s.ready && k in s.ready
    && s.cpus[c].pc == Loop(k) && s.cpus[c].irq == NoIrq && s.lock[k] == Free
  }

  lemma Sends(s: State, c: nat, k: nat)
    requires CanSend(s, c, k)
    ensures
      var x := Advance(c);
      Legal(s, [x, x, x, x] + [x, x, x, x]) && Run(s, [x, x, x, x] + [x, x, x, x]) == Sent(s, c, k)
  {
    var x, u := Advance(c), s.cpus[c];
    var s1 := Next(s, x);
    var s2 := Next(s1, x);
    var s3 := Next(s2, x);
    var s4 := Next(s3, x);
    assert s4 == State(s.cpus[c := u.(pc := PutArg0(k), found := u.found + {k})], s.ready, s.lock[k := By(c)],
                       s.done[k := false], s.pending, s.box[k := s.box[k].(fn := u.call.fn)], s.leaf);
    RunFour(s, x, x, x, x);
    SendsMore(s4, c, k);
    RunOn(s, [x, x, x, x], [x, x, x, x]);
    assert Run(s4, [x, x, x, x]) == Sent(s, c, k);
  }

  lemma PutsArgs(s: State, c: nat, k: nat)
    requires Shape(s) && c < N(s) && k < N(s) && c in s.ready && s.cpus[c].pc == PutArg0(k) && s.cpus[c].irq == NoIrq
    ensures
      var x, u := Advance(c), s.cpus[c];
      && Enabled(s, x) && Enabled(Next(s, x), x)
      && Next(Next(s, x), x) == s.(cpus := s.cpus[c := u.(pc := SendRead(k))],
                                   box := s.box[k := Call(s.box[k].fn, u.call.arg0, u.call.arg1)])
  {
    var x, u := Advance(c), s.cpus[c];
    assert Next(Next(s, x), x).cpus == s.cpus[c := u.(pc := SendRead(k))];
  }

  lemma Pends(s: State, c: nat, k: nat)
    requires Shape(s) && c < N(s) && k < N(s) && c in s.ready && s.cpus[c].pc == SendRead(k) && s.cpus[c].irq == NoIrq
    ensures
      var x, u := Advance(c), s.cpus[c];
      && Enabled(s, x) && Enabled(Next(s, x), x)
      && Next(Next(s, x), x) == s.(cpus := s.cpus[c := u.(pc := Wait(k))], pending := s.pending[k := true])
  {
  }

  lemma SendsMore(s: State, c: nat, k: nat)
    requires Shape(s) && c < N(s) && k < N(s) && c in s.ready && s.cpus[c].pc == PutArg0(k) && s.cpus[c].irq == NoIrq
    ensures
      var x, u := Advance(c), s.cpus[c];
      && Legal(s, [x, x, x, x])
      && Run(s, [x, x, x, x]) == s.(cpus := s.cpus[c := u.(pc := Wait(k))], pending := s.pending[k := true],
                                    box := s.box[k := Call(s.box[k].fn, u.call.arg0, u.call.arg1)])
  {
    hide Next, Enabled;
    var x, u := Advance(c), s.cpus[c];
    PutsArgs(s, c, k);
    var s2 := s.(cpus := s.cpus[c := u.(pc := SendRead(k))],
                 box := s.box[k := Call(s.box[k].fn, u.call.arg0, u.call.arg1)]);
    Pends(s2, c, k);
    RunFour(s, x, x, x, x);
  }

  /** One CPU's position in its handler, and one more run counted by a caller. */
  function AtIrq(cpus: seq<Cpu>, t: nat, irq: Irq): (r: seq<Cpu>)
    requires t < |cpus|
  {
    cpus[t := cpus[t].(irq := irq)]
  }

  function Counted(cpus: seq<Cpu>, h: nat, t: nat): (r: seq<Cpu>)
    requires h < |cpus| && t < |cpus[h].ran|
  {
    cpus[h := cpus[h].(ran := cpus[h].ran[t := cpus[h].ran[t] + 1])]
  }

  lemma AtIrqTwice(cpus: seq<Cpu>, t: nat, a: Irq, b: Irq)
    requires t < |cpus|
    ensures AtIrq(AtIrq(cpus, t, a), t, b) == AtIrq(cpus, t, b)
    ensures cpus[t].irq == b ==> AtIrq(cpus, t, b) == cpus
  {
  }

  /** After target t, idle, has served the call of the CPU h that waits for it. */
  function Answered(s: State, t: nat, h: nat): (r: State)
    requires Shape(s) && t < N(s) && h < N(s)
  {
    s.(cpus := Counted(s.cpus, h, t), done := s.done[t := true], pending := s.pending[t := false])
  }

  lemma Serves(s: State, t: nat, h: nat)
    requires Shape(s) && t < N(s) && h < N(s) && t != h && t in s.ready
    requires s.cpus[t].pc == Idle && s.cpus[t].irq == NoIrq && s.pending[t]
    requires s.lock[t] == By(h) && s.box[t] == s.cpus[h].call && s.box[t].fn != 0
    ensures
      var p, x := Poll(t), Ipi.Serve(t);
      Legal(s, [p, x, x, x] + [x, x, x, x]) && Run(s, [p, x, x, x] + [x, x, x, x]) == Answered(s, t, h)
  {
    var p, x := Poll(t), Ipi.Serve(t);
    var s1 := Next(s, p);
    var s2 := Next(s1, x);
    var s3 := Next(s2, x);
    var s4 := Next(s3, x);
    assert s4 == s.(cpus := AtIrq(s.cpus, t, GetArg0(s.box[t].fn)), pending := s.pending[t := false]);
    RunFour(s, p, x, x, x);
    ServesMore(s4, t, h);
    hide Next, Enabled;
    RunOn(s, [p, x, x, x], [x, x, x, x]);
    AtIrqTwice(s.cpus, t, GetArg0(s.box[t].fn), NoIrq);
  }

  lemma GetsArgs(s: State, t: nat)
    requires Shape(s) && t < N(s) && t in s.ready && s.cpus[t].irq == GetArg0(s.box[t].fn)
    ensures
      var x := Ipi.Serve(t);
      && Enabled(s, x) && Enabled(Next(s, x), x)
      && Next(Next(s, x), x) == s.(cpus := AtIrq(s.cpus, t, Execute(s.box[t])))
  {
  }

  lemma Executes(s: State, t: nat, h: nat)
    requires Shape(s) && t < N(s) && h < N(s) && t != h && t in s.ready
    requires s.lock[t] == By(h) && s.cpus[t].irq == Execute(s.cpus[h].call) && s.cpus[h].call.fn != 0
    ensures
      var x := Ipi.Serve(t);
      && Enabled(s, x) && Enabled(Next(s, x), x)
      && Next(Next(s, x), x) == s.(cpus := Counted(AtIrq(s.cpus, t, NoIrq), h, t), done := s.done[t := true])
  {
    var x := Ipi.Serve(t);
    var s1 := Next(s, x);
    assert s1 == s.(cpus := AtIrq(Counted(s.cpus, h, t), t, SetDone));
    assert AtIrq(s1.cpus, t, NoIrq) == Counted(AtIrq(s.cpus, t, NoIrq), h, t);
  }

  lemma ServesMore(s: State, t: nat, h: nat)
    requires Shape(s) && t < N(s) && h < N(s) && t != h && t in s.ready
    requires s.cpus[t].irq == GetArg0(s.box[t].fn)
    requires s.lock[t] == By(h) && s.box[t] == s.cpus[h].call && s.box[t].fn != 0
    ensures
      var x := Ipi.Serve(t);
      && Legal(s, [x, x, x, x])
      && Run(s, [x, x, x, x]) == s.(cpus := Counted(AtIrq(s.cpus, t, NoIrq), h, t), done := s.done[t := true])
  {
    var x := Ipi.Serve(t);
    GetsArgs(s, t);
    var s2 := s.(cpus := AtIrq(s.cpus, t, Execute(s.box[t])));
    Executes(s2, t, h);
    AtIrqTwice(s.cpus, t, Execute(s.box[t]), NoIrq);
    hide Next, Enabled, AtIrq, Counted;
    RunFour(s, x, x, x, x);
  }

  /** After the caller has seen the answer and moved on. */
  function MovedOn(s: State, c: nat, k: nat): (r: State)
    requires Shape(s) && c < N(s) && k < N(s)
  {
    s.(cpus := s.cpus[c := s.cpus[c].(pc := Loop(k + 1))], lock := s.lock[k := Free],
       box := s.box[k := s.box[k].(fn := 0)])
  }

  lemma MovesOn(s: State, c: nat, k: nat)
    requires Shape(s) && c < N(s) && k < N(s) && c in s.ready && s.cpus[c].pc == Wait(k)
    requires s.cpus[c].irq == NoIrq && s.done[k]
    ensures
      var x := Advance(c);
      Legal(s, [x, x] + [x]) && Run(s, [x, x] + [x]) == MovedOn(s, c, k)
  {
    var x := Advance(c);
    var s1 := Next(s, x);
    assert s1 == s.(cpus := s.cpus[c := s.cpus[c].(pc := ResetFn(k))]);
    var s2 := Next(s1, x);
    var s3 := Next(s2, x);
    assert s3 == MovedOn(s, c, k);
    hide Next, Enabled;
    RunTwo(s, x, x);
    RunOne(s2, x);
    RunOn(s, [x, x], [x]);
  }

  // ---------------------------------------------------------------------------
  // The run

  const CALL: Call := Call(1, 0, 0)
  const NONE: Cpu := Cpu(Idle, NoIrq, Call(0, 0, 0), {}, {}, [0, 0, 0, 0])

  function Start4(): (s: State)
    ensures Init(s) && N(s) == 4
  {
    State([NONE, NONE, NONE, NONE], {0}, [Free, Free, Free, Free], [true, true, true, true],
          [false, false, false, false], [Call(0, 0, 0), Call(0, 0, 0), Call(0, 0, 0), Call(0, 0, 0)],
          [Free, Free, Free])
  }

  /** A caller at the first target. */
  function Calls(): (u: Cpu) { Cpu(Loop(0), NoIrq, CALL, {}, {0, 1, 2, 3}, [0, 0, 0, 0]) }

  lemma Begin(s: State, c: nat)
    requires Shape(s) && N(s) == 4 && c < 4 && s.ready == {0, 1, 2, 3} && s.cpus[c] == NONE
    ensures Legal(s, [Start(c, CALL)]) && Run(s, [Start(c, CALL)]) == s.(cpus := s.cpus[c := Calls()])
  {
    RunOne(s, Start(c, CALL));
    assert seq(4, _ => 0) == [0, 0, 0, 0];
  }

  /** Join a run and what it leads to. */
  ghost predicate Leads(s: State, a: seq<Step>, r: State) { Shape(s) && Legal(s, a) && Run(s, a) == r }

  lemma Join(s: State, a: seq<Step>, m: State, b: seq<Step>, r: State)
    requires Leads(s, a, m) && Leads(m, b, r)
    ensures Leads(s, a + b, r)
  {
    hide Legal, Run;
    RunOn(s, a, b);
  }

  /** All four online. */
  function Online4(): (s: State)
    ensures Shape(s) && N(s) == 4
  {
    Start4().(ready := {0, 1, 2, 3})
  }

  lemma AllOnline()
    ensures Leads(Start4(), [Online(1), Online(2)] + [Online(3)], Online4())
  {
    var s := Start4();
    RunTwo(s, Online(1), Online(2));
    var m := Next(Next(s, Online(1)), Online(2));
    RunOne(m, Online(3));
    RunOn(s, [Online(1), Online(2)], [Online(3)]);
    assert Next(m, Online(3)).ready == {0, 1, 2, 3};
  }

  /** CPU 2 waits for CPU 1 and everyone else is idle. */
  ghost predicate TwoWaiting(s: State) {
    && Shape(s) && N(s) == 4 && s.ready == {0, 1, 2, 3}
    && s.cpus[0] == s.cpus[1] == s.cpus[3] == NONE && s.cpus[2].pc == Wait(1) && s.cpus[2].irq == NoIrq
    && s.lock == [Free, By(2), Free, Free] && !s.done[1] && !s.pending[2] && !s.pending[3] && !s.pending[0]
  }

  /** CPU 2 has called CPU 0 and is at the head of target 1. */
  ghost predicate OneCalled(s: State) {
    && Shape(s) && N(s) == 4 && s.ready == {0, 1, 2, 3}
    && s.cpus[0] == s.cpus[1] == s.cpus[3] == NONE && s.cpus[2].pc == Loop(1) && s.cpus[2].irq == NoIrq
    && s.lock == [Free, Free, Free, Free] && s.pending == [false, false, false, false]
  }

  /** After the call to one idle target. */
  function Rounded(s: State, c: nat, k: nat): (r: State)
    requires Shape(s) && c < N(s) && k < N(s)
  {
    MovedOn(Answered(Sent(s, c, k), k, c), c, k)
  }

  /** A step of a call or of an answer. */
  predicate Plain(x: Step) { x.Advance? || x.Poll? || x.Serve? }

  lemma RoundTrip(s: State, c: nat, k: nat) returns (xs: seq<Step>)
    requires CanSend(s, c, k) && s.cpus[k].pc == Idle && s.cpus[k].irq == NoIrq && s.cpus[c].call.fn != 0
    ensures Leads(s, xs, Rounded(s, c, k)) && forall x :: x in xs ==> Plain(x)
  {
    hide Legal, Run, Next, Enabled;
    Sends(s, c, k);
    var a := Sent(s, c, k);
    Serves(a, k, c);
    var b := Answered(a, k, c);
    MovesOn(b, c, k);
    var x, p, y := Advance(c), Poll(k), Ipi.Serve(k);
    var b1, b2, b3 := [x, x, x, x] + [x, x, x, x], [p, y, y, y] + [y, y, y, y], [x, x] + [x];
    Join(s, b1, a, b2, b);
    Join(s, b1 + b2, b, b3, MovedOn(b, c, k));
    xs := b1 + b2 + b3;
  }

  lemma FirstCall() returns (xs: seq<Step>, r: State)
    ensures Leads(Online4(), xs, r) && OneCalled(r)
  {
    var s := Online4();
    Begin(s, 2);
    var s1 := s.(cpus := s.cpus[2 := Calls()]);
    var ys := RoundTrip(s1, 2, 0);
    r := Rounded(s1, 2, 0);
    hide Legal, Run, Next, Enabled;
    Join(s, [Start(2, CALL)], s1, ys, r);
    xs := [Start(2, CALL)] + ys;
  }

  /** CPU 2 calls CPU 0, is answered, and goes on to CPU 1, which does not answer. */
  lemma TwoWaits() returns (xs: seq<Step>, r: State)
    ensures Leads(Online4(), xs, r) && TwoWaiting(r)
  {
    var a, s := FirstCall();
    Sends(s, 2, 1);
    r := Sent(s, 2, 1);
    hide Legal, Run, Next, Enabled;
    var x := Advance(2);
    xs := a + ([x, x, x, x] + [x, x, x, x]);
    Join(Online4(), a, s, [x, x, x, x] + [x, x, x, x], r);
  }

  /** CPU 2 waits for CPU 1 and CPU 3 for CPU 0, both idle. */
  ghost predicate BothWaiting(s: State) {
    && Shape(s) && N(s) == 4 && s.ready == {0, 1, 2, 3} && s.cpus[0] == s.cpus[1] == NONE
    && s.cpus[2].pc == Wait(1) && s.cpus[2].irq == NoIrq && s.cpus[3].pc == Wait(0) && s.cpus[3].irq == NoIrq
    && s.lock[0] == By(3) && s.lock[1] == By(2) && !s.done[0] && !s.done[1] && !s.pending[2] && !s.pending[3]
  }

  lemma ThreeWaits(s: State) returns (xs: seq<Step>, r: State)
    requires TwoWaiting(s)
    ensures Leads(s, xs, r) && BothWaiting(r)
  {
    Begin(s, 3);
    var s1 := s.(cpus := s.cpus[3 := Calls()]);
    Sends(s1, 3, 0);
    r := Sent(s1, 3, 0);
    hide Legal, Run, Next, Enabled;
    var x := Advance(3);
    xs := [Start(3, CALL)] + ([x, x, x, x] + [x, x, x, x]);
    Join(s, [Start(3, CALL)], s1, [x, x, x, x] + [x, x, x, x], r);
  }

  /** CPU 0, before it answers, begins to call CPU 1, whose mailbox is taken. */
  lemma ZeroSpins(s: State) returns (xs: seq<Step>, r: State)
    requires BothWaiting(s)
    ensures Leads(s, xs, r) && r.cpus == s.cpus[0 := r.cpus[0]] && r.cpus[0].pc == Acquire(1) && r.cpus[0].irq == NoIrq
    ensures r.ready == s.ready && r.lock == s.lock && r.done == s.done && r.pending == s.pending
  {
    Begin(s, 0);
    var s1 := s.(cpus := s.cpus[0 := Calls()]);
    RunTwo(s1, Advance(0), Advance(0));
    r := Next(Next(s1, Advance(0)), Advance(0));
    assert r.cpus == s.cpus[0 := r.cpus[0]];
    hide Legal, Run, Next, Enabled;
    xs := [Start(0, CALL)] + [Advance(0), Advance(0)];
    Join(s, [Start(0, CALL)], s1, [Advance(0), Advance(0)], r);
  }

  /** And CPU 1 begins to call CPU 0. */
  lemma OneSpins(s: State) returns (xs: seq<Step>, r: State)
    requires Shape(s) && N(s) == 4 && s.ready == {0, 1, 2, 3} && s.cpus[1] == NONE
    ensures Leads(s, xs, r) && r.cpus == s.cpus[1 := r.cpus[1]] && r.cpus[1].pc == Acquire(0) && r.cpus[1].irq == NoIrq
    ensures r.ready == s.ready && r.lock == s.lock && r.done == s.done && r.pending == s.pending
  {
    Begin(s, 1);
    var s1 := s.(cpus := s.cpus[1 := Calls()]);
    RunOne(s1, Advance(1));
    r := Next(s1, Advance(1));
    assert r.cpus == s.cpus[1 := r.cpus[1]];
    hide Legal, Run, Next, Enabled;
    xs := [Start(1, CALL)] + [Advance(1)];
    Join(s, [Start(1, CALL)], s1, [Advance(1)], r);
  }

  /** Four CPUs can deadlock: 2 waits for 1, 3 waits for 0, and 0 and 1 spin on each other's
      mailboxes, which 3 and 2 hold. */
  lemma FourBlocked() returns (xs: seq<Step>)
    ensures Init(Start4()) && N(Start4()) == 4 && Legal(Start4(), xs)
    ensures forall c: nat :: c < 4 ==> Blocked(Run(Start4(), xs), c)
  {
    AllOnline();
    var a0 := [Online(1), Online(2)] + [Online(3)];
    var a1, s1 := TwoWaits();
    var a2, s2 := ThreeWaits(s1);
    var a3, s3 := ZeroSpins(s2);
    var a4, s4 := OneSpins(s3);
    assert forall c: nat :: c < 4 ==> Blocked(s4, c);
    hide Legal, Run, Blocked;
    Join(Start4(), a0, Online4(), a1, s1);
    Join(Start4(), a0 + a1, s1, a2, s2);
    Join(Start4(), a0 + a1 + a2, s2, a3, s3);
    Join(Start4(), a0 + a1 + a2 + a3, s3, a4, s4);
    xs := a0 + a1 + a2 + a3 + a4;
  }

  // ---------------------------------------------------------------------------
  // A call that nobody disturbs

  /** c is at target k of its call, every other CPU is idle and every mailbox free. */
  ghost predicate Alone(s: State, c: nat, k: nat) {
    && Shape(s) && c < N(s) && k <= N(s) && c in s.ready
    && s.cpus[c].pc == Loop(k) && s.cpus[c].irq == NoIrq && s.cpus[c].call.fn != 0
    && (forall t: nat :: t < N(s) && t != c ==> s.cpus[t].pc == Idle && s.cpus[t].irq == NoIrq)
    && (forall t: nat :: t < N(s) ==> s.lock[t] == Free)
  }

  /** It runs on every ready CPU from k on, once, with the caller's arguments, and returns. */
  ghost predicate Finished(s: State, r: State, c: nat, k: nat)
    requires Shape(s) && Shape(r) && c < N(s) == N(r)
  {
    && r.cpus[c].pc == Idle && r.cpus[c].irq == NoIrq && r.cpus[c].call == s.cpus[c].call && r.ready == s.ready
    && (forall t: nat :: t < N(s) ==>
          r.cpus[c].ran[t] == s.cpus[c].ran[t] + (if t >= k && t != c && t in s.ready then 1 else 0))
    && (forall t: nat :: t < N(s) && t != c ==> r.cpus[t] == s.cpus[t])
    && (forall t: nat :: t < N(s) ==> r.lock[t] == Free)
  }

  lemma OneTarget(s: State, c: nat, k: nat) returns (xs: seq<Step>)
    requires Alone(s, c, k) && k < N(s)
    ensures Legal(s, xs) && Alone(Run(s, xs), c, k + 1) && N(Run(s, xs)) == N(s) && forall x :: x in xs ==> Plain(x)
    ensures
      var r := Run(s, xs);
      && r.ready == s.ready && r.cpus[c].call == s.cpus[c].call
      && r.cpus[c].ran == (if k != c && k in s.ready then s.cpus[c].ran[k := s.cpus[c].ran[k] + 1] else s.cpus[c].ran)
      && (forall t: nat :: t < N(s) && t != c ==> r.cpus[t] == s.cpus[t])
  {
    var x := Advance(c);
    if k == c || k !in s.ready {
      RunOne(s, x);
      xs := [x];
    } else {
      hide Legal, Run, Next, Enabled;
      xs := RoundTrip(s, c, k);
    }
  }

  /** A call that finds every other CPU idle can be run to its end, and has then run exactly once on
      each ready one. */
  lemma {:induction false} CallFinishes(s: State, c: nat, k: nat) returns (xs: seq<Step>)
    requires Alone(s, c, k)
    ensures Legal(s, xs) && N(Run(s, xs)) == N(s) && Finished(s, Run(s, xs), c, k) && forall x :: x in xs ==> Plain(x)
    decreases N(s) - k
  {
    if k == N(s) {
      RunOne(s, Advance(c));
      xs := [Advance(c)];
    } else {
      var ys := OneTarget(s, c, k);
      var r := Run(s, ys);
      hide Legal, Run, Next, Enabled;
      var zs := CallFinishes(r, c, k + 1);
      RunOn(s, ys, zs);
      xs := ys + zs;
    }
  }

  /** So can a section of a leaf lock that is free, which it leaves free. */
  lemma LeafFinishes(s: State, c: nat, l: nat)
    requires Shape(s) && Enabled(s, Leaf(c, l)) && s.leaf[l] == Free
    ensures
      var a, x := Next(s, Leaf(c, l)), Advance(c);
      Enabled(a, x) && Next(a, x).cpus[c].pc == LeafHeld(l) && Next(a, x).leaf == s.leaf[l := By(c)] &&
      Enabled(Next(a, x), x) && Next(Next(a, x), x) == s
  {
    var r := Next(Next(Next(s, Leaf(c, l)), Advance(c)), Advance(c));
    assert r.cpus == s.cpus && r.leaf == s.leaf;
  }
}
