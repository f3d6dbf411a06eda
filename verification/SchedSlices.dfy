/** Time slices.  schedule counts a CPU's slice down from the priority of the env it picked, so a
    slice is as many passes through schedule as that priority; and with BoundedBypass, a waiting
    env waits for a bounded number of them. */
module SchedSlices {
  import opened Queue
  import opened Sets
  import opened Sched
  import opened SchedInv
  import opened SchedRuns

  /** A pass through schedule that gives the CPU up. */
  predicate Yields(ph: Phase) { (ph.SchedStart? || ph.SchedLock?) && ph.giveUp }

  /** e is runnable and unmarked, and c is not giving up. */
  ghost predicate Keeps(s: State, c: nat, e: nat)
    requires Shape(s)
  {
    c < NCPU(s) && e < NENV && s.envs[e].status == RUNNABLE && !s.envs[e].killPending && !Yields(s.phase[c])
  }

  /** In every state of the run, including the last. */
  ghost predicate Undisturbed(s: State, steps: seq<Step>, c: nat, e: nat)
    requires Inv(s) && Legal(s, steps)
    decreases |steps|
  {
    InvRefs(s);
    Keeps(s, c, e) && (steps == [] || (StepInv(s, steps[0]); Undisturbed(Next(s, steps[0]), steps[1..], c, e)))
  }

  /** How often c passes through schedule. */
  ghost function Passes(steps: seq<Step>, c: nat): (n: nat) {
    if steps == [] then 0 else (if steps[0] == Schedule(c) then 1 else 0) + Passes(steps[1..], c)
  }

  /** c goes on with e: nothing else changes. */
  ghost predicate Continues(s: State, r: State, c: nat, e: nat)
    requires Shape(s) && Shape(r) && c < NCPU(s) == NCPU(r)
  {
    r.phase == s.phase[c := Picked(e)] && r.envs == s.envs && r.queue == s.queue && r.cur == s.cur
  }

  /** c gives e up, to the tail of the queue, and looks for another. */
  ghost predicate HandsOver(s: State, r: State, c: nat, e: nat)
    requires Shape(s) && Shape(r) && c < NCPU(s) == NCPU(r)
  {
    && r.queue == Without(s.queue, e) + [e]
    && (r.phase[c].Picked? || (r.phase[c] == Spin && e < NENV && !r.envs[e].running))
  }

  // ---------------------------------------------------------------------------
  // One slice

  lemma OwnPass(s: State, c: nat, e: nat)
    requires Inv(s) && Refs(s) && Enabled(s, Schedule(c)) && Keeps(s, c, e) && Owner(s, c) == Of(e)
    ensures
      var r := Next(s, Schedule(c));
      && (if s.count[c] == 0 then HandsOver(s, r, c, e) else Continues(s, r, c, e) && r.count[c] == s.count[c] - 1)
  {
    CpuAt(s, c);
    hide Inv, FirstEligible, Without;
  }

  /** A pass either searches or runs the slice down. */
  lemma SearchesOrCounts(s: State, x: Step)
    requires Refs(s) && Enabled(s, x) && (x.Schedule? || x.Recv? || x.Retry?)
    ensures Slots(Searched(s, x).queue) && NCPU(Searched(s, x)) == NCPU(s)
    ensures
      var a, r := Searched(s, x), Next(s, x);
      || r == Pick(a, x.c)
      || (&& r.phase == s.phase[x.c := r.phase[x.c]] && r.cur == s.cur
          && (|| (r.envs == a.envs && r.count == a.count)
              || (r.envs == s.envs && s.count[x.c] != 0 && r.count == s.count[x.c := s.count[x.c] - 1])))
  {
    hide Pick, Without;
    if x.Recv? { assert Deschedule(Blocked(s, x.c), s.cur[x.c].e) == Blocked(s, x.c); }
  }

  lemma PickElsewhere(a: State, d: nat, c: nat, e: nat)
    requires Shape(a) && d < NCPU(a) && Slots(a.queue) && c != d && c < NCPU(a) && e < NENV
    ensures var r := Pick(a, d);
            && r.phase[c] == a.phase[c] && r.cur[c] == a.cur[c] && r.count[c] == a.count[c]
            && r.envs[e].pri == a.envs[e].pri
  {
  }

  lemma SearchedSame(s: State, x: Step, e: nat)
    requires Refs(s) && Enabled(s, x) && (x.Schedule? || x.Recv? || x.Retry?) && e < NENV
    ensures var a := Searched(s, x);
            a.phase == s.phase && a.cur == s.cur && a.count == s.count && a.envs[e].pri == s.envs[e].pri
  {
    hide Without;
  }

  /** Another CPU touches neither c's slice nor e's priority. */
  lemma ElsewhereSearch(s: State, x: Step, c: nat, e: nat)
    requires Inv(s) && Refs(s) && Enabled(s, x) && x.c != c && c < NCPU(s) && e < NENV
    requires x.Schedule? || x.Recv? || x.Retry?
    ensures var r := Next(s, x);
            && r.phase[c] == s.phase[c] && r.cur[c] == s.cur[c] && r.count[c] == s.count[c]
            && r.envs[e].pri == s.envs[e].pri
  {
    SearchesOrCounts(s, x);
    SearchedSame(s, x, e);
    PickElsewhere(Searched(s, x), x.c, c, e);
    hide Inv, Next, Enabled, Pick, Searched;
  }

  lemma Elsewhere(s: State, x: Step, c: nat, e: nat)
    requires Inv(s) && Refs(s) && Enabled(s, x) && x.c != c && Keeps(s, c, e)
    ensures var r := Next(s, x);
            && r.phase[c] == s.phase[c] && r.cur[c] == s.cur[c] && r.count[c] == s.count[c]
            && r.envs[e].pri == s.envs[e].pri
  {
    if x.Schedule? || x.Recv? || x.Retry? {
      ElsewhereSearch(s, x, c, e);
    } else {
      assert x.Fork? ==> s.freeList[0] in s.freeList && e !in s.freeList;
      hide Inv, LockedSchedule, Receive, Pick, Without;
    }
  }

  lemma OwnReceive(s: State, c: nat, e: nat)
    requires Inv(s) && Refs(s) && Enabled(s, Recv(c)) && Owner(s, c) == Of(e) && e < NENV
    ensures !Keeps(Next(s, Recv(c)), c, e)
  {
    BlockedInv(s, c);
    hide Inv;
    var a := Blocked(s, c);
    assert a.envs[e].status == NOT_RUNNABLE;
    hide FirstEligible, Without;
  }

  lemma OwnStep(s: State, x: Step, e: nat)
    requires Inv(s) && Refs(s) && Enabled(s, x) && Keeps(s, x.c, e) && Owner(s, x.c) == Of(e)
    requires Keeps(Next(s, x), x.c, e) && !x.Schedule? && !x.Recv?
    ensures
      var r := Next(s, x);
      Owner(r, x.c) == Of(e) && r.envs[e].pri == s.envs[e].pri && r.count[x.c] == s.count[x.c]
  {
    CpuAt(s, x.c);
    assert x.Fork? ==> s.freeList[0] in s.freeList && e !in s.freeList;
    hide Inv, LockedSchedule, Receive, Pick, Without;
  }

  lemma SliceStep(s: State, x: Step, c: nat, e: nat)
    requires Inv(s) && Refs(s) && Enabled(s, x) && Keeps(s, c, e) && Owner(s, c) == Of(e)
    requires Keeps(Next(s, x), c, e) && (x == Schedule(c) ==> s.count[c] != 0)
    ensures
      var r := Next(s, x);
      && Owner(r, c) == Of(e) && r.envs[e].pri == s.envs[e].pri
      && r.count[c] == s.count[c] - (if x == Schedule(c) then 1 else 0)
  {
    if x.c != c {
      Elsewhere(s, x, c, e);
    } else if x.Schedule? {
      OwnPass(s, c, e);
    } else if x.Recv? {
      OwnReceive(s, c, e);
    } else {
      OwnStep(s, x, e);
    }
    hide Inv, Next, Enabled;
  }

  lemma {:induction false} SliceRun(s: State, steps: seq<Step>, c: nat, e: nat)
    requires Inv(s) && Legal(s, steps) && Undisturbed(s, steps, c, e) && c < NCPU(s) && Owner(s, c) == Of(e)
    requires s.count[c] < 0 || Passes(steps, c) <= s.count[c]
    ensures
      var t := SchedRuns.Run(s, steps);
      && NCPU(t) == NCPU(s) && Keeps(t, c, e) && Owner(t, c) == Of(e) && t.envs[e].pri == s.envs[e].pri
      && t.count[c] == s.count[c] - Passes(steps, c)
    decreases |steps|
  {
    if steps != [] {
      InvRefs(s);
      StepInv(s, steps[0]);
      SliceStep(s, steps[0], c, e);
      hide Inv, Next, Enabled, Owner;
      SliceRun(Next(s, steps[0]), steps[1..], c, e);
    }
  }

  lemma PickStarts(s: State, x: Step, e: nat)
    requires Inv(s) && Refs(s) && Enabled(s, x) && Picks(s, x) && Next(s, x).phase[x.c] == Picked(e)
    ensures var r := Next(s, x); e < NENV && r.count[x.c] == r.envs[e].pri - 1
  {
    PicksFrom(s, x);
    hide Inv;
  }

  /** The length of a slice.  From the pick of e by c, as long as e stays runnable and unmarked and
      c does not give up, the next pri - 1 passes of c through schedule go on with e and the one
      after them hands over; with priority 0 none ever does. */
  lemma SliceExact(s: State, x: Step, steps: seq<Step>, e: nat)
    requires Inv(s) && Refs(s) && Enabled(s, x) && Picks(s, x) && Next(s, x).phase[x.c] == Picked(e) && e < NENV
    requires Inv(Next(s, x)) && Legal(Next(s, x), steps) && Undisturbed(Next(s, x), steps, x.c, e)
    requires Next(s, x).envs[e].pri > 0 ==> Passes(steps, x.c) < Next(s, x).envs[e].pri
    ensures
      var c, a, t := x.c, Next(s, x), SchedRuns.Run(Next(s, x), steps);
      && NCPU(t) == NCPU(s) && Owner(t, c) == Of(e) && Refs(t)
      && (Enabled(t, Schedule(c)) ==>
            if Passes(steps, c) == a.envs[e].pri - 1 then HandsOver(t, Next(t, Schedule(c)), c, e)
            else Continues(t, Next(t, Schedule(c)), c, e))
  {
    var c, a := x.c, Next(s, x);
    PickStarts(s, x, e);
    SliceRun(a, steps, c, e);
    var t := SchedRuns.Run(a, steps);
    InvRefs(t);
    hide Inv, Next, Enabled, Owner;
    if Enabled(t, Schedule(c)) { OwnPass(t, c, e); }
  }

  lemma YieldPass(s: State, c: nat, e: nat)
    requires Inv(s) && Refs(s) && Enabled(s, Schedule(c)) && s.phase[c].giveUp && s.cur[c] == Of(e)
    requires e < NENV && s.envs[e].status == RUNNABLE
    ensures HandsOver(s, Next(s, Schedule(c)), c, e)
  {
    hide Inv, FirstEligible, Without;
  }

  /** Giving up hands over at once, whatever is left of the slice: a trap that yields, the kill check
      and the pass through schedule. */
  lemma YieldHandsOver(s: State, c: nat, e: nat)
    requires Inv(s) && Refs(s) && Enabled(s, Trap(c, true)) && s.cur[c] == Of(e)
    requires e < NENV && s.envs[e].status == RUNNABLE && !s.envs[e].killPending
    ensures
      var a := Next(s, Trap(c, true));
      Refs(a) && Enabled(a, CheckKill(c)) &&
      var b := Next(a, CheckKill(c));
      Refs(b) && Enabled(b, Schedule(c)) && b.queue == s.queue && HandsOver(b, Next(b, Schedule(c)), c, e)
  {
    StepInv(s, Trap(c, true));
    var a := Next(s, Trap(c, true));
    InvRefs(a);
    StepInv(a, CheckKill(c));
    var b := Next(a, CheckKill(c));
    InvRefs(b);
    assert b.queue == s.queue && b.envs == s.envs && b.cur == s.cur && b.phase[c] == SchedLock(true);
    hide Inv;
    YieldPass(b, c, e);
  }

  // ---------------------------------------------------------------------------
  // How long a runnable env waits

  /** Every priority is from 1 to max, and so every slice is shorter than max. */
  ghost predicate Priorities(s: State, max: nat)
    requires Shape(s)
  {
    && (forall e: nat :: e < NENV && s.envs[e].status != FREE ==> 1 <= s.envs[e].pri <= max)
    && (forall c: nat :: c < NCPU(s) ==> 0 <= s.count[c] && (s.count[c] == 0 || s.count[c] < max))
  }

  lemma PrioritiesPick(s: State, c: nat, max: nat)
    requires Shape(s) && c < NCPU(s) && Slots(s.queue) && Priorities(s, max) && QueueOk(s)
    ensures Priorities(Pick(s, c), max)
  {
  }

  lemma PrioritiesKept(s: State, x: Step, max: nat)
    requires Inv(s) && Refs(s) && Enabled(s, x) && Priorities(s, max)
    ensures Priorities(Next(s, x), max)
  {
    if x.Schedule? || x.Recv? || x.Retry? {
      SearchingPriorities(s, x, max);
    } else if x.Fork? {
      CpuAt(s, x.c);
      EnvAt(s, s.cur[x.c].e);
      hide Inv;
    } else {
      QuietPriorities(s, x, max);
    }
  }

  lemma QuietPriorities(s: State, x: Step, max: nat)
    requires Refs(s) && Enabled(s, x) && Priorities(s, max) && !x.Fork? && !x.Schedule? && !x.Recv? && !x.Retry?
    ensures Priorities(Next(s, x), max)
  {
    hide LockedSchedule, Receive, Pick, Without;
  }

  lemma SearchedPriorities(s: State, x: Step, max: nat)
    requires Refs(s) && Enabled(s, x) && Priorities(s, max) && (x.Schedule? || x.Recv? || x.Retry?)
    ensures Priorities(Searched(s, x), max)
  {
    hide Without;
  }

  lemma SearchingPriorities(s: State, x: Step, max: nat)
    requires Inv(s) && Refs(s) && Enabled(s, x) && Priorities(s, max) && (x.Schedule? || x.Recv? || x.Retry?)
    ensures Priorities(Next(s, x), max)
  {
    SearchesOrCounts(s, x);
    SearchedPriorities(s, x, max);
    SearchedQueue(s, x);
    PrioritiesPick(Searched(s, x), x.c, max);
    hide Inv, Pick, Next, Enabled, Searched, QueueOk;
  }

  lemma SearchedQueue(s: State, x: Step)
    requires Inv(s) && Refs(s) && Enabled(s, x) && (x.Schedule? || x.Recv? || x.Retry?)
    ensures QueueOk(Searched(s, x))
  {
    assert QueueOk(s);
    if x.Schedule? && s.cur[x.c].Of? { AppendDistinct(Without(s.queue, s.cur[x.c].e), s.cur[x.c].e); }
    hide Inv;
  }

  /** A pass of c that does not go on with its own env finds one, because w is there. */
  lemma PassPicks(s: State, c: nat, w: nat)
    requires Inv(s) && Refs(s) && Enabled(s, Schedule(c)) && Waiting(s, w) && MayRun(s, c, w)
    ensures
      var r := Next(s, Schedule(c));
      Picks(s, Schedule(c)) || (r.count[c] == s.count[c] - 1 && s.count[c] != 0)
  {
    var a := Searched(s, Schedule(c));
    SearchedRivals(s, Schedule(c), w);
    assert a.queue[0..] == a.queue;
    SearchStopsAt(a, c, 0, w);
    hide Inv, FirstEligible, Without;
  }

  /** What is left before c must choose w. */
  ghost function Credit(s: State, c: nat, w: nat, max: nat): (n: int)
    requires Shape(s) && c < NCPU(s)
  {
    |Rivals(s, w)| * max + s.count[c]
  }

  lemma Times(a: nat, b: nat, max: nat)
    requires a <= b
    ensures a * max <= b * max && (a < b ==> a * max + max <= b * max)
  {
    if a < b { assert (a + 1) * max <= b * max; }
  }

  lemma CreditStep(s: State, x: Step, c: nat, w: nat, max: nat)
    requires Inv(s) && Refs(s) && Enabled(s, x) && Priorities(s, max)
    requires Waiting(s, w) && Waiting(Next(s, x), w) && c < NCPU(s) && MayRun(s, c, w)
    ensures Credit(Next(s, x), c, w, max) + (if x == Schedule(c) then 1 else 0) <= Credit(s, c, w, max)
  {
    var r := Next(s, x);
    RivalsShrink(s, x, w);
    PrioritiesKept(s, x, max);
    if x.c == c && Picks(s, x) {
      PickTakesRival(s, x, w);
    } else {
      CountKept(s, x, c);
      if x == Schedule(c) { PassPicks(s, c, w); }
    }
    hide Inv, Next, Enabled, Rivals, Picks, Refs, MayRun;
    SubsetSize(Rivals(r, w), Rivals(s, w));
    Times(|Rivals(r, w)|, |Rivals(s, w)|, max);
  }

  /** Only c's own picks and passes change its count. */
  lemma CountKept(s: State, x: Step, c: nat)
    requires Inv(s) && Refs(s) && Enabled(s, x) && c < NCPU(s) && !(x.c == c && Picks(s, x))
    ensures x != Schedule(c) ==> Next(s, x).count[c] == s.count[c]
  {
    if x.Schedule? || x.Recv? || x.Retry? {
      hide Inv, FirstEligible, Without;
    } else {
      hide Inv, LockedSchedule, Receive, Pick, Without;
    }
  }

  /** Nobody starves.  While w waits, a CPU that may run it passes through schedule at most so many
      times: max for each unclaimed env ahead of w, and what is left of its slice. */
  lemma {:induction false} BoundedWait(s: State, steps: seq<Step>, c: nat, w: nat, max: nat)
    requires Inv(s) && Legal(s, steps) && w < NENV && WaitsThroughout(s, steps, w)
    requires c < NCPU(s) && MayRun(s, c, w) && Priorities(s, max)
    ensures Passes(steps, c) <= |Rivals(s, w)| * max + s.count[c]
    decreases |steps|
  {
    if steps != [] {
      var x := steps[0];
      InvRefs(s);
      StepInv(s, x);
      CreditStep(s, x, c, w, max);
      PrioritiesKept(s, x, max);
      PinKept(s, x, w);
      hide Inv, Next, Enabled, Rivals, Priorities;
      BoundedWait(Next(s, x), steps[1..], c, w, max);
    } else {
      assert |Rivals(s, w)| * max >= 0;
    }
  }

  lemma PinKeptSearching(s: State, x: Step, w: nat)
    requires Inv(s) && Refs(s) && Enabled(s, x) && w < NENV && (x.Schedule? || x.Recv? || x.Retry?)
    ensures Next(s, x).envs[w].pinned == s.envs[w].pinned
  {
    hide Inv, FirstEligible, Without;
  }

  lemma PinKept(s: State, x: Step, w: nat)
    requires Inv(s) && Refs(s) && Enabled(s, x) && Waiting(s, w) && Waiting(Next(s, x), w)
    ensures Next(s, x).envs[w].pinned == s.envs[w].pinned
  {
    if x.Schedule? || x.Recv? || x.Retry? {
      PinKeptSearching(s, x, w);
    } else {
      assert x.Fork? ==> s.freeList[0] in s.freeList && w !in s.freeList;
      hide Inv, LockedSchedule, Receive, Pick, Without;
    }
  }

  // ---------------------------------------------------------------------------
  // A CPU with nothing to do

  /** A CPU that spins takes w, or one ahead of it, as soon as there is a w it may run; and then runs
      it. */
  lemma SpinEnds(s: State, c: nat, w: nat)
    requires Inv(s) && Refs(s) && Enabled(s, Retry(c)) && Waiting(s, w) && MayRun(s, c, w)
    ensures
      var r := Next(s, Retry(c));
      && Picks(s, Retry(c)) && r.phase[c].Picked? && (r.phase[c].e == w || r.phase[c].e in Before(s.queue, w))
      && Refs(r) && Enabled(r, Step.Run(c))
      && Next(r, Step.Run(c)).cur == s.cur[c := Of(r.phase[c].e)] && Next(r, Step.Run(c)).phase[c] == User
  {
    assert w in s.queue;
    assert s.queue[0..] == s.queue;
    SearchStopsAt(s, c, 0, w);
    StepInv(s, Retry(c));
    InvRefs(Next(s, Retry(c)));
    NeverPicksMarked(s, Retry(c));
    hide Inv, FirstEligible;
  }
}
