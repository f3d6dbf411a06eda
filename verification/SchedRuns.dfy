/** What holds over whole runs of the scheduler: exclusive execution, sound remote destroy,
    the run queue, and bounded bypass. */
module SchedRuns {
  import opened Queue
  import opened Sets
  import opened Sched
  import opened SchedInv

  ghost predicate Legal(s: State, steps: seq<Step>)
    requires Inv(s)
    decreases |steps|
  {
    InvRefs(s);
    steps == [] ||
    (Enabled(s, steps[0]) &&
     (StepInv(s, steps[0]);
      Legal(Next(s, steps[0]), steps[1..])))
  }

  ghost function Run(s: State, steps: seq<Step>): (r: State)
    requires Inv(s) && Legal(s, steps)
    ensures Inv(r)
    decreases |steps|
  {
    InvRefs(s);
    if steps == [] then s
    else
      StepInv(s, steps[0]);
      Run(Next(s, steps[0]), steps[1..])
  }

  // ---------------------------------------------------------------------------
  // Exclusive execution

  /** In every reachable state an env is owned by at most one CPU, its own fields name that
      CPU, and a pinned env is owned by its CPU only. */
  lemma ExclusiveExecution(s: State, steps: seq<Step>, c: nat, e: nat)
    requires Init(s) && Legal(s, steps)
    requires c < NCPU(Run(s, steps)) && Owner(Run(s, steps), c) == Of(e)
    ensures
      var r := Run(s, steps);
      && e < NENV && r.envs[e].running && r.envs[e].cpu == c
      && (r.envs[e].pinned >= 0 ==> r.envs[e].pinned == c)
      && (forall d: nat :: d < NCPU(r) && d != c ==> Owner(r, d) != Of(e))
  {
    var r := Run(s, steps);
    assert CpuOk(r, c);
    forall d: nat | d < NCPU(r) && d != c ensures Owner(r, d) != Of(e) {
      assert CpuOk(r, d);
    }
  }

  /** Step x makes CPU x.c choose an env from the queue, rather than continue its own. */
  ghost predicate Picks(s: State, x: Step)
    requires Refs(s) && Enabled(s, x)
  {
    match x
    case Retry(c) => Next(s, x).phase[c].Picked?
    case Recv(c) => Next(s, x).phase[c].Picked?
    case Schedule(c) =>
      Next(s, x).phase[c].Picked?
      && (s.phase[c].giveUp || s.count[c] == 0 || s.cur[c].Nobody? || s.envs[s.cur[c].e].status != RUNNABLE)
    case _ => false
  }

  /** The state whose queue a picking step searches. */
  ghost function Searched(s: State, x: Step): (a: State)
    requires Refs(s) && Enabled(s, x)
    ensures Shape(a)
  {
    match x
    case Schedule(c) => if s.cur[c].Of? then Deschedule(s, s.cur[c].e) else s
    case Recv(c) => Blocked(s, c)
    case _ => s
  }

  lemma PicksFrom(s: State, x: Step)
    requires Refs(s) && Enabled(s, x) && Picks(s, x)
    ensures Slots(Searched(s, x).queue) && NCPU(Searched(s, x)) == NCPU(s)
    ensures FirstEligible(Searched(s, x), x.c, 0).Of?
    ensures Next(s, x) == Pick(Searched(s, x), x.c)
    ensures Next(s, x).phase[x.c] == Picked(FirstEligible(Searched(s, x), x.c, 0).e)
  {
    if x.Recv? {
      var e := s.cur[x.c].e;
      assert Deschedule(Blocked(s, x.c), e) == Blocked(s, x.c);
    }
  }

  /** A marked env is never newly picked, nor one that another CPU runs or is pinned away. */
  lemma NeverPicksMarked(s: State, x: Step)
    requires Inv(s) && Refs(s) && Enabled(s, x) && Picks(s, x)
    ensures
      var e := Next(s, x).phase[x.c].e;
      && e < NENV && !s.envs[e].killPending && s.envs[e].status == RUNNABLE
      && (s.envs[e].pinned < 0 || s.envs[e].pinned == x.c)
      && (forall d: nat :: d < NCPU(s) && d != x.c ==> Owner(s, d) != Of(e))
  {
    PicksFrom(s, x);
    var a := Searched(s, x);
    var e := Next(s, x).phase[x.c].e;
    assert e in a.queue && Eligible(a, x.c, e);
    assert CpuOk(s, x.c);
    assert e in s.queue;
    forall d: nat | d < NCPU(s) && d != x.c ensures Owner(s, d) != Of(e) {
      assert CpuOk(s, d);
      if x.Schedule? && s.cur[x.c].Of? { assert Owner(s, x.c) == s.cur[x.c]; }
      if x.Recv? { assert Owner(s, x.c) == s.cur[x.c]; }
    }
  }

  // ---------------------------------------------------------------------------
  // The run queue

  /** env_sched_list lists exactly the RUNNABLE envs, each once, in every reachable state. */
  lemma QueueIsRunnable(s: State, steps: seq<Step>)
    requires Init(s) && Legal(s, steps)
    ensures Distinct(Run(s, steps).queue)
    ensures forall e: nat :: e in Run(s, steps).queue <==> e < NENV && Run(s, steps).envs[e].status == RUNNABLE
  {
    assert ListsOk(Run(s, steps));
  }

  // ---------------------------------------------------------------------------
  // Remote destroy

  /** When env_free completes, that incarnation was not freed before and no other CPU owns
      the env; over a whole run no id is freed twice. */
  lemma FreedOnceAndAlone(s: State, steps: seq<Step>, c: nat)
    requires Init(s) && Legal(s, steps)
    requires c < NCPU(Run(s, steps)) && Run(s, steps).phase[c].FreePages?
    ensures
      var r := Run(s, steps);
      var e := r.phase[c].e;
      && e < NENV && Distinct(r.freed) && r.envs[e].id !in r.freed
      && (forall d: nat :: d < NCPU(r) ==> Owner(r, d) != Of(e))
      && (forall d: nat :: d < NCPU(r) && d != c ==> r.phase[d] != FreePages(e))
  {
    var r := Run(s, steps);
    var e := r.phase[c].e;
    assert CpuOk(r, c) && EnvOk(r, e);
    forall d: nat | d < NCPU(r) ensures Owner(r, d) != Of(e) { assert CpuOk(r, d); }
    forall d: nat | d < NCPU(r) && d != c ensures r.phase[d] != FreePages(e) { assert FreeApart(r, c, d); }
  }

  /** env_wait_remote_destroy returns only after the incarnation it waits for was freed. */
  lemma WaitReturnsAfterFree(s: State, steps: seq<Step>, c: nat)
    requires Init(s) && Legal(s, steps)
    requires c < NCPU(Run(s, steps)) && Enabled(Run(s, steps), WaitOver(c))
    ensures Run(s, steps).phase[c].id in Run(s, steps).freed
  {
    assert CpuOk(Run(s, steps), c);
  }

  lemma {:induction false} FreedGrows(s: State, steps: seq<Step>, id: nat)
    requires Inv(s) && Legal(s, steps) && id in s.freed
    ensures id in Run(s, steps).freed
    decreases |steps|
  {
    if steps != [] {
      InvRefs(s);
      StepInv(s, steps[0]);
      FreedGrows(Next(s, steps[0]), steps[1..], id);
    }
  }

  /** Once an incarnation is freed, the condition of any wait for it stays false for ever,
      whatever becomes of its slot. */
  lemma WaitConditionStaysFalse(s: State, steps: seq<Step>, e: nat, id: nat)
    requires Inv(s) && Legal(s, steps) && id in s.freed
    ensures !StillWaiting(Run(s, steps), e, id)
  {
    FreedGrows(s, steps, id);
    var r := Run(s, steps);
    if e < NENV { assert EnvOk(r, e); }
  }

  // ---------------------------------------------------------------------------
  // Bounded bypass

  /** The envs ahead of w. */
  ghost function Before(q: seq<nat>, w: nat): (b: set<nat>) {
    if q == [] || q[0] == w then {} else {q[0]} + Before(q[1..], w)
  }

  lemma {:induction false} BeforeWithout(q: seq<nat>, w: nat, e: nat)
    requires e != w
    ensures Before(Without(q, e), w) == Before(q, w) - {e}
  {
    if q != [] && q[0] != w {
      BeforeWithout(q[1..], w, e);
    }
  }

  lemma {:induction false} BeforeAppend(q: seq<nat>, w: nat, e: nat)
    requires w in q
    ensures Before(q + [e], w) == Before(q, w)
  {
    if q[0] != w {
      assert (q + [e])[1..] == q[1..] + [e];
      BeforeAppend(q[1..], w, e);
    }
  }

  lemma {:induction false} BeforeInQueue(q: seq<nat>, w: nat, x: nat)
    requires x in Before(q, w)
    ensures x in q && x != w
  {
    if q != [] && q[0] != w && x != q[0] { BeforeInQueue(q[1..], w, x); }
  }

  lemma {:induction false} BeforeSize(q: seq<nat>, w: nat)
    requires w in q
    ensures |Before(q, w)| < |q|
  {
    if q[0] != w { BeforeSize(q[1..], w); }
  }

  /** w is in the queue, unclaimed and unmarked. */
  predicate Waiting(s: State, w: nat)
    requires Shape(s)
  {
    w < NENV && s.envs[w].status == RUNNABLE && !s.envs[w].running && !s.envs[w].killPending
  }

  predicate MayRun(s: State, c: nat, w: nat)
    requires Shape(s) && w < NENV
  {
    s.envs[w].pinned < 0 || s.envs[w].pinned == c
  }

  /** The unclaimed envs ahead of w: what a CPU could still choose instead of w. */
  ghost function Rivals(s: State, w: nat): (m: set<nat>)
    requires Shape(s)
  {
    set x | x in Before(s.queue, w) && x < NENV && !s.envs[x].running
  }

  /** The search never passes an eligible w. */
  lemma {:induction false} SearchStopsAt(s: State, c: nat, k: nat, w: nat)
    requires Shape(s) && Slots(s.queue) && k <= |s.queue| && w in s.queue[k..] && w < NENV && Eligible(s, c, w)
    ensures
      var x := FirstEligible(s, c, k);
      x.Of? && (x.e == w || x.e in Before(s.queue[k..], w))
    decreases |s.queue| - k
  {
    var t := s.queue[k..];
    assert t[0] == s.queue[k] && t[1..] == s.queue[k + 1..];
    if !Eligible(s, c, s.queue[k]) {
      SearchStopsAt(s, c, k + 1, w);
    }
  }

  /** Rivals shrink when nobody new is ahead of w and nobody ahead of it stopped running. */
  lemma FewerRivals(s: State, r: State, w: nat)
    requires Shape(s) && Shape(r) && Before(r.queue, w) <= Before(s.queue, w)
    requires forall y: nat :: y in Before(r.queue, w) && y < NENV && s.envs[y].running ==> r.envs[y].running
    ensures Rivals(r, w) <= Rivals(s, w)
  {
  }

  lemma PickRivals(a: State, c: nat, w: nat)
    requires Shape(a) && c < NCPU(a) && Slots(a.queue)
    ensures Rivals(Pick(a, c), w) <= Rivals(a, w)
  {
    FewerRivals(a, Pick(a, c), w);
  }

  lemma DescheduleRivals(s: State, e: nat, w: nat)
    requires Inv(s) && e < NENV && e != w && w in s.queue
    ensures Rivals(Deschedule(s, e), w) <= Rivals(s, w)
    ensures Before(Deschedule(s, e).queue, w) == Before(s.queue, w) - {e}
  {
    var r := Deschedule(s, e);
    BeforeWithout(s.queue, w, e);
    BeforeAppend(Without(s.queue, e), w, e);
    if s.envs[e].status != RUNNABLE {
      assert e !in s.queue;
      if e in Before(s.queue, w) { BeforeInQueue(s.queue, w, e); }
    }
    FewerRivals(s, r, w);
  }

  lemma BlockedRivals(s: State, c: nat, w: nat)
    requires Inv(s) && Refs(s) && Enabled(s, Recv(c)) && s.cur[c] != Of(w)
    ensures Rivals(Blocked(s, c), w) <= Rivals(s, w)
    ensures Before(Blocked(s, c).queue, w) == Before(s.queue, w) - {s.cur[c].e}
  {
    BeforeWithout(s.queue, w, s.cur[c].e);
    FewerRivals(s, Blocked(s, c), w);
  }

  /** The env a CPU gives up is not the unclaimed w. */
  lemma NotOwn(s: State, x: Step, w: nat)
    requires Inv(s) && Refs(s) && Enabled(s, x) && Waiting(s, w) && (x.Schedule? || x.Recv?)
    ensures s.cur[x.c] != Of(w)
  {
    assert CpuOk(s, x.c);
  }

  lemma SearchedRivals(s: State, x: Step, w: nat)
    requires Inv(s) && Refs(s) && Enabled(s, x) && Waiting(s, w) && (x.Schedule? || x.Recv? || x.Retry?)
    ensures Rivals(Searched(s, x), w) <= Rivals(s, w)
    ensures Before(Searched(s, x).queue, w) <= Before(s.queue, w)
    ensures w in Searched(s, x).queue && Slots(Searched(s, x).queue) && NCPU(Searched(s, x)) == NCPU(s)
    ensures Searched(s, x).envs[w] == s.envs[w]
    ensures !x.Retry? && s.cur[x.c].Of? ==> s.cur[x.c].e !in Before(Searched(s, x).queue, w)
  {
    assert w in s.queue;
    match x
    case Schedule(c) =>
      NotOwn(s, x, w);
      if s.cur[c].Of? { DescheduleRivals(s, s.cur[c].e, w); }
    case Recv(c) =>
      NotOwn(s, x, w);
      BlockedRivals(s, c, w);
    case Retry(_) =>
  }

  /** No step brings a rival: nothing joins the queue ahead of w, and an env ahead of w that
      stops running leaves or goes behind it. */
  lemma RivalsShrink(s: State, x: Step, w: nat)
    requires Inv(s) && Refs(s) && Enabled(s, x) && Waiting(s, w) && Waiting(Next(s, x), w)
    ensures Rivals(Next(s, x), w) <= Rivals(s, w)
  {
    var r := Next(s, x);
    assert w in s.queue;
    if x.Schedule? || x.Recv? || x.Retry? {
      SchedulingRivals(s, x, w);
    } else {
      OtherRivals(s, x, w);
    }
  }

  lemma SchedulingRivals(s: State, x: Step, w: nat)
    requires Inv(s) && Refs(s) && Enabled(s, x) && Waiting(s, w) && (x.Schedule? || x.Recv? || x.Retry?)
    ensures Rivals(Next(s, x), w) <= Rivals(s, w)
  {
    var a := Searched(s, x);
    SearchedRivals(s, x, w);
    PickRivals(a, x.c, w);
    SearchesOrNot(s, x);
    hide Inv, Pick, Next, Searched, Enabled;
    var r := Next(s, x);
    if r != Pick(a, x.c) {
      FewerRivals(if x.Recv? then a else s, r, w);
    }
  }

  /** Such a step searches the queue, or leaves it and the envs alone: the time slice goes on, or
      the receiver is to be freed. */
  lemma SearchesOrNot(s: State, x: Step)
    requires Refs(s) && Enabled(s, x) && (x.Schedule? || x.Recv? || x.Retry?)
    ensures
      var a, r := Searched(s, x), Next(s, x);
      && NCPU(a) == NCPU(s) && Slots(a.queue)
      && (r == Pick(a, x.c) || var b := if x.Recv? then a else s; r.queue == b.queue && r.envs == b.envs)
  {
    hide Pick;
    if x.Recv? {
      assert Deschedule(Blocked(s, x.c), s.cur[x.c].e) == Blocked(s, x.c);
    }
  }

  lemma OtherBefore(s: State, x: Step, w: nat)
    requires Inv(s) && Refs(s) && Enabled(s, x) && Waiting(Next(s, x), w) && w in s.queue
    requires !x.Schedule? && !x.Recv? && !x.Retry?
    ensures Before(Next(s, x).queue, w) <= Before(s.queue, w)
  {
    hide Inv;
    match x
    case Status(c, e, st) =>
      if e != w { BeforeWithout(s.queue, w, e); }
      BeforeAppend(s.queue, w, e);
    case Free(c) => BeforeWithout(s.queue, w, s.phase[c].e);
    case SendFinish(c) => BeforeAppend(s.queue, w, s.phase[c].e);
    case _ =>
  }

  lemma OtherRivals(s: State, x: Step, w: nat)
    requires Inv(s) && Refs(s) && Enabled(s, x) && Waiting(s, w) && Waiting(Next(s, x), w) && w in s.queue
    requires !x.Schedule? && !x.Recv? && !x.Retry?
    ensures Rivals(Next(s, x), w) <= Rivals(s, w)
  {
    var r := Next(s, x);
    OtherBefore(s, x, w);
    if x.Fork? { ForkedIsIdle(s, x.c); }
    if x.Free? {
      BeforeWithout(s.queue, w, s.phase[x.c].e);
      FreedNotAhead(s, x.c, w);
    }
    hide Inv, Before;
    FewerRivals(s, r, w);
  }

  lemma FreedNotAhead(s: State, c: nat, w: nat)
    requires Inv(s) && Refs(s) && Enabled(s, Free(c))
    ensures s.phase[c].e !in Before(Next(s, Free(c)).queue, w)
  {
    var e := s.phase[c].e;
    var r := Next(s, Free(c));
    assert e !in r.queue;
    if e in Before(r.queue, w) { BeforeInQueue(r.queue, w, e); }
  }

  lemma ForkedIsIdle(s: State, c: nat)
    requires Inv(s) && Refs(s) && Enabled(s, Fork(c))
    ensures !s.envs[s.freeList[0]].running
  {
    assert s.freeList[0] in s.freeList;
    assert EnvOk(s, s.freeList[0]);
  }

  /** A pick by a CPU that may run w takes w or one of its rivals, which then is none. */
  lemma PickTakesRival(s: State, x: Step, w: nat)
    requires Inv(s) && Refs(s) && Enabled(s, x) && Waiting(s, w) && Waiting(Next(s, x), w)
    requires Picks(s, x) && MayRun(s, x.c, w)
    ensures Rivals(Next(s, x), w) < Rivals(s, w)
  {
    var r := Next(s, x);
    var a := Searched(s, x);
    PicksFrom(s, x);
    RivalsShrink(s, x, w);
    SearchedRivals(s, x, w);
    assert a.queue[0..] == a.queue;
    SearchStopsAt(a, x.c, 0, w);
    var y := r.phase[x.c].e;
    assert y != w && y in Before(a.queue, w);
    NotRunningWhenPicked(s, x, y);
    assert y in Rivals(s, w) && y !in Rivals(r, w);
  }

  lemma NotRunningWhenPicked(s: State, x: Step, y: nat)
    requires Inv(s) && Refs(s) && Enabled(s, x) && Picks(s, x) && Next(s, x).phase[x.c] == Picked(y)
    ensures y < NENV && (s.cur[x.c] != Of(y) || x.Retry? ==> !s.envs[y].running) && Next(s, x).envs[y].running
  {
    PicksFrom(s, x);
    var a := Searched(s, x);
    assert Eligible(a, x.c, y);
    assert EnvOk(s, y) && CpuOk(s, x.c);
  }

  /** w waits in every state of the run, including the last. */
  ghost predicate WaitsThroughout(s: State, steps: seq<Step>, w: nat)
    requires Inv(s) && Legal(s, steps)
    decreases |steps|
  {
    InvRefs(s);
    Waiting(s, w) &&
    (steps == [] || (StepInv(s, steps[0]); WaitsThroughout(Next(s, steps[0]), steps[1..], w)))
  }

  /** How many steps are picks by CPUs that may run w. */
  ghost function PicksPast(s: State, steps: seq<Step>, w: nat): (r: nat)
    requires Inv(s) && Legal(s, steps) && w < NENV
    decreases |steps|
  {
    InvRefs(s);
    if steps == [] then 0
    else
      StepInv(s, steps[0]);
      (if Picks(s, steps[0]) && MayRun(s, steps[0].c, w) then 1 else 0) + PicksPast(Next(s, steps[0]), steps[1..], w)
  }

  /** Bounded bypass: while w waits, CPUs that may run it pick at most as many envs as were
      unclaimed ahead of it at the start, which are fewer than the queue has; the next such pick
      is w. */
  lemma {:induction false} BoundedBypass(s: State, steps: seq<Step>, w: nat)
    requires Inv(s) && Legal(s, steps) && w < NENV && WaitsThroughout(s, steps, w)
    ensures PicksPast(s, steps, w) <= |Rivals(s, w)| <= |Before(s.queue, w)| < |s.queue|
    decreases |steps|
  {
    InvRefs(s);
    assert w in s.queue;
    BeforeSize(s.queue, w);
    SubsetSize(Rivals(s, w), Before(s.queue, w));
    if steps != [] {
      var x := steps[0];
      StepInv(s, x);
      var r := Next(s, x);
      BoundedBypass(r, steps[1..], w);
      RivalsShrink(s, x, w);
      SubsetSize(Rivals(r, w), Rivals(s, w));
      if Picks(s, x) && MayRun(s, x.c, w) {
        PickTakesRival(s, x, w);
      }
    }
  }
}
