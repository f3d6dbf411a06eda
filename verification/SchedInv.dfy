/** Every scheduler step keeps the invariant of Sched. */
module SchedInv {
  import opened Queue
  import opened Sched

  /** The fields ownership and destruction depend on. */
  predicate SameCore(v: Env, w: Env) {
    && v.running == w.running && v.cpu == w.cpu && v.pinned == w.pinned && v.killPending == w.killPending
    && v.killDone == w.killDone && v.id == w.id && v.parent == w.parent && (v.status == FREE <==> w.status == FREE)
  }

  /** A step of CPU c that moves neither ownership nor kill marks. */
  ghost predicate Gentle(s: State, r: State, c: nat) {
    && Shape(s) && Shape(r) && NCPU(r) == NCPU(s) && c < NCPU(s)
    && r.freed == s.freed && r.made == s.made && r.freeList == s.freeList
    && (forall e :: 0 <= e < NENV ==> SameCore(s.envs[e], r.envs[e]))
    && (forall d :: 0 <= d < NCPU(s) && d != c ==> r.cur[d] == s.cur[d] && r.phase[d] == s.phase[d])
    && Owner(r, c) == Owner(s, c)
    && (s.phase[c].FreePages? || s.phase[c].WaitRemote? ==> r.phase[c] == s.phase[c] && r.cur[c] == s.cur[c])
    && !(r.phase[c].FreePages? && !s.phase[c].FreePages?)
    && !(r.phase[c].WaitRemote? && !s.phase[c].WaitRemote?)
    && (r.cur[c].Of? ==> r.cur[c].e < NENV)
    && (r.phase[c].FreeDone? ==> r.phase[c].e < NENV)
    && (r.phase[c].Sending? ==> r.phase[c].e < NENV && r.cur[c].Of?)
  }

  lemma EnvAt(s: State, e: nat)
    requires Inv(s) && e < NENV
    ensures EnvOk(s, e)
  {
  }

  lemma CpuAt(s: State, c: nat)
    requires Inv(s) && c < NCPU(s)
    ensures CpuOk(s, c)
  {
  }

  lemma ApartAt(s: State, c: nat, d: nat)
    requires Inv(s) && c < NCPU(s) && d < NCPU(s)
    ensures FreeApart(s, c, d)
  {
  }

  lemma GentleCpu(s: State, r: State, c: nat, d: nat)
    requires Inv(s) && Gentle(s, r, c) && d < NCPU(s)
    ensures CpuOk(r, d)
  {
    assert CpuOk(s, d);
    if s.phase[d].FreePages? && s.cur[d] == Of(s.phase[d].e) && !s.envs[s.phase[d].e].running {
      var w: nat :| w < NCPU(s) && s.phase[w] == WaitRemote(s.phase[d].e, s.envs[s.phase[d].e].id);
      assert r.phase[w] == s.phase[w];
    }
  }

  lemma GentleEnv(s: State, r: State, c: nat, e: nat)
    requires Inv(s) && Gentle(s, r, c) && e < NENV
    ensures EnvOk(r, e)
  {
    assert EnvOk(s, e) && SameCore(s.envs[e], r.envs[e]);
    if s.envs[e].status != FREE && s.envs[e].killPending {
      var d: nat :| Handles(s, d, e);
      assert Handles(r, d, e);
    }
  }

  lemma GentleInv(s: State, r: State, c: nat)
    requires Inv(s) && Gentle(s, r, c)
    requires Distinct(r.queue) && (forall e: nat :: e in r.queue <==> e < NENV && r.envs[e].status == RUNNABLE)
    ensures Inv(r)
  {
    forall e: nat | e < NENV ensures EnvOk(r, e) { GentleEnv(s, r, c, e); }
    forall d: nat | d < NCPU(r) ensures CpuOk(r, d) { GentleCpu(s, r, c, d); }
    forall d: nat, d': nat | d < NCPU(r) && d' < NCPU(r) ensures FreeApart(r, d, d') { assert FreeApart(s, d, d'); }
    forall e: nat ensures e in r.freeList <==> e < NENV && r.envs[e].status == FREE {
      if e < NENV { assert SameCore(s.envs[e], r.envs[e]); }
    }
  }

  lemma AppendDistinct(q: seq<nat>, e: nat)
    requires Distinct(q) && e !in q
    ensures Distinct(q + [e])
    ensures forall x :: x in q + [e] <==> x in q || x == e
  {
  }

  /** Trap, the harmless kill check, WaitOver, SendClaim, SendAbort, Run. */
  lemma PhaseStepInv(s: State, x: Step)
    requires Inv(s) && Refs(s) && Enabled(s, x)
    requires x.Trap? || x.SendClaim? || x.SendAbort? || x.Run? || x.FreeReturn?
             || (x.CheckKill? && !(s.cur[x.c].Of? && s.envs[s.cur[x.c].e].killPending))
    ensures Inv(Next(s, x))
  {
    var r := Next(s, x);
    assert CpuOk(s, x.c);
    assert Gentle(s, r, x.c);
    GentleInv(s, r, x.c);
  }

  /** Whoever the caller is, on an env that is not free. */
  lemma SetStatusInv(s: State, c: nat, e: nat, st: Status)
    requires Inv(s) && c < NCPU(s) && s.phase[c] == User && e < NENV && st != FREE && s.envs[e].status != FREE
    ensures Inv(SetStatus(s, c, e, st))
  {
    var r := SetStatus(s, c, e, st);
    assert CpuOk(s, c);
    if e !in s.queue { AppendDistinct(s.queue, e); }
    assert Gentle(s, r, c);
    GentleInv(s, r, c);
  }

  lemma SendFinishInv(s: State, c: nat)
    requires Inv(s) && Refs(s) && Enabled(s, SendFinish(c))
    ensures Inv(Next(s, SendFinish(c)))
  {
    var r := Next(s, SendFinish(c));
    assert CpuOk(s, c);
    AppendDistinct(s.queue, s.phase[c].e);
    assert Gentle(s, r, c);
    GentleInv(s, r, c);
  }

  // ---------------------------------------------------------------------------
  // Giving a CPU up and taking it

  /** CPU c lets go of env e: e stops running, c owns nothing. */
  ghost predicate LetsGo(s: State, r: State, c: nat, e: nat) {
    && Shape(s) && Shape(r) && NCPU(r) == NCPU(s) && c < NCPU(s) && e < NENV
    && r.freed == s.freed && r.made == s.made && r.freeList == s.freeList && r.cur == s.cur
    && Owner(s, c) == Of(e) && s.cur[c] == Of(e) && !s.phase[c].FreePages? && !s.phase[c].WaitRemote?
    && r.phase == s.phase[c := Spin]
    && SameCore(s.envs[e].(running := false, cpu := -1), r.envs[e])
    && (forall x :: 0 <= x < NENV && x != e ==> r.envs[x] == s.envs[x])
  }

  lemma LetsGoInv(s: State, r: State, c: nat, e: nat)
    requires Inv(s) && LetsGo(s, r, c, e)
    requires Distinct(r.queue) && (forall x: nat :: x in r.queue <==> x < NENV && r.envs[x].status == RUNNABLE)
    ensures Inv(r)
  {
    assert CpuOk(s, c);
    forall x: nat | x < NENV ensures EnvOk(r, x) {
      assert EnvOk(s, x);
      if s.envs[x].status != FREE && s.envs[x].killPending {
        var d: nat :| Handles(s, d, x);
        assert Handles(r, d, x);
      }
    }
    forall d: nat | d < NCPU(r) ensures CpuOk(r, d) {
      assert CpuOk(s, d);
      if s.phase[d].FreePages? && s.cur[d] == Of(s.phase[d].e) && !s.envs[s.phase[d].e].running {
        var w: nat :| w < NCPU(s) && s.phase[w] == WaitRemote(s.phase[d].e, s.envs[s.phase[d].e].id);
        assert r.phase[w] == s.phase[w];
      }
    }
    forall d: nat, d': nat | d < NCPU(r) && d' < NCPU(r) ensures FreeApart(r, d, d') { assert FreeApart(s, d, d'); }
  }

  /** What a spinning CPU claims: a RUNNABLE env nobody runs. */
  lemma PickFacts(s: State, c: nat)
    requires Inv(s) && Refs(s) && c < NCPU(s) && s.phase[c] == Spin && FirstEligible(s, c, 0).Of?
    ensures var e := FirstEligible(s, c, 0).e; e < NENV && !s.envs[e].running && s.envs[e].status == RUNNABLE
    ensures var e := FirstEligible(s, c, 0).e; s.envs[e].pinned >= 0 ==> s.envs[e].pinned == c
  {
    var e := FirstEligible(s, c, 0).e;
    assert CpuOk(s, c) && EnvOk(s, e);
  }

  /** CPU c, which owns nothing, takes e. */
  ghost predicate Takes(s: State, r: State, c: nat, e: nat) {
    && Shape(s) && Shape(r) && c < NCPU(s) && e < NENV && s.phase[c] == Spin
    && !s.envs[e].running && !s.envs[e].killPending && s.envs[e].status == RUNNABLE
    && (s.envs[e].pinned >= 0 ==> s.envs[e].pinned == c)
    && r.envs == s.envs[e := s.envs[e].(running := true, cpu := c)] && r.phase == s.phase[c := Picked(e)]
    && r.cur == s.cur && r.queue == s.queue && r.freeList == s.freeList && r.made == s.made && r.freed == s.freed
  }

  lemma TakesEnv(s: State, r: State, c: nat, e: nat, y: nat)
    requires Takes(s, r, c, e) && y < NENV && EnvOk(s, y)
    ensures EnvOk(r, y)
  {
    if s.envs[y].status != FREE && s.envs[y].killPending {
      var d: nat :| Handles(s, d, y);
      assert Handles(r, d, y);
    }
  }

  lemma TakesCpu(s: State, r: State, c: nat, e: nat, d: nat)
    requires Takes(s, r, c, e) && d < NCPU(s) && CpuOk(s, d)
    ensures CpuOk(r, d)
  {
    if d != c && s.phase[d].FreePages? && s.cur[d] == Of(s.phase[d].e) && !s.envs[s.phase[d].e].running {
      var w: nat :| w < NCPU(s) && s.phase[w] == WaitRemote(s.phase[d].e, s.envs[s.phase[d].e].id);
      assert r.phase[w] == s.phase[w];
    }
  }

  /** A spinning CPU claims an env nobody runs. */
  lemma PickInv(s: State, c: nat)
    requires Inv(s) && Refs(s) && c < NCPU(s) && s.phase[c] == Spin
    ensures Inv(Pick(s, c))
  {
    var r := Pick(s, c);
    if FirstEligible(s, c, 0).Of? {
      var e := FirstEligible(s, c, 0).e;
      PickFacts(s, c);
      assert Takes(s, r, c, e);
      forall y: nat | y < NENV ensures EnvOk(r, y) { TakesEnv(s, r, c, e, y); }
      forall d: nat | d < NCPU(r) ensures CpuOk(r, d) { TakesCpu(s, r, c, e, d); }
      hide EnvOk, CpuOk, FirstEligible, Pick;
      forall d: nat, d': nat | d < NCPU(r) && d' < NCPU(r) ensures FreeApart(r, d, d') { assert FreeApart(s, d, d'); }
    } else {
      assert r == s;
    }
  }

  /** The state between losing the old env and claiming a new one. */
  function GaveUp(s: State, c: nat): (r: State)
    requires Shape(s) && c < NCPU(s) && (s.cur[c].Of? ==> s.cur[c].e < NENV)
  {
    Goto(if s.cur[c].Of? then Deschedule(s, s.cur[c].e) else s, c, Spin)
  }

  lemma GaveUpInv(s: State, c: nat)
    requires Inv(s) && Refs(s) && c < NCPU(s) && s.phase[c].SchedLock?
    ensures Inv(GaveUp(s, c)) && Refs(GaveUp(s, c))
  {
    var r := GaveUp(s, c);
    assert CpuOk(s, c);
    if s.cur[c].Of? {
      var e := s.cur[c].e;
      assert EnvOk(s, e);
      AppendDistinct(Without(s.queue, e), e);
      assert LetsGo(s, r, c, e);
      LetsGoInv(s, r, c, e);
    } else {
      assert Gentle(s, r, c);
      GentleInv(s, r, c);
    }
    InvRefs(r);
  }

  /** Picking does not look at the phase of the picking CPU. */
  lemma PickFromAnywhere(s: State, c: nat)
    requires Shape(s) && c < NCPU(s) && Slots(s.queue)
    ensures Pick(Goto(s, c, Spin), c) == Pick(s, c)
  {
    SameSearch(s, c, 0);
  }

  lemma {:induction false} SameSearch(s: State, c: nat, k: nat)
    requires Shape(s) && c < NCPU(s) && Slots(s.queue) && k <= |s.queue|
    ensures FirstEligible(Goto(s, c, Spin), c, k) == FirstEligible(s, c, k)
    decreases |s.queue| - k
  {
    if k < |s.queue| { SameSearch(s, c, k + 1); }
  }

  lemma ScheduleInv(s: State, c: nat)
    requires Inv(s) && Refs(s) && Enabled(s, Schedule(c))
    ensures Inv(Next(s, Schedule(c)))
  {
    var r := Next(s, Schedule(c));
    var e := s.cur[c];
    if s.phase[c].giveUp || s.count[c] == 0 || e.Nobody? || s.envs[e.e].status != RUNNABLE {
      GaveUpInv(s, c);
      PickInv(GaveUp(s, c), c);
      var a := if e.Of? then Deschedule(s, e.e) else s;
      PickFromAnywhere(a, c);
    } else {
      assert CpuOk(s, c);
      assert Gentle(s, r, c);
      GentleInv(s, r, c);
    }
  }

  // ---------------------------------------------------------------------------
  // Destruction

  /** The owner of an env is unique and is the CPU its own fields name. */
  lemma OwnerUnique(s: State, c: nat, d: nat, e: nat)
    requires Inv(s) && c < NCPU(s) && d < NCPU(s) && Owner(s, c) == Of(e) && Owner(s, d) == Of(e)
    ensures c == d
  {
    assert CpuOk(s, c) && CpuOk(s, d);
  }

  /** Live envs with equal ids are the same slot. */
  lemma IdUnique(s: State, e: nat, f: nat)
    requires Inv(s) && e < NENV && f < NENV && s.envs[e].id == s.envs[f].id && s.envs[e].id != 0
    ensures e == f
  {
    assert EnvOk(s, e) && EnvOk(s, f);
  }

  /** Nobody else is freeing an env that c, in user phase, may act on. */
  lemma NoOtherFreer(s: State, c: nat, e: nat, d: nat)
    requires Inv(s) && c < NCPU(s) && d < NCPU(s) && s.phase[c] == User && MayAct(s, c, e)
    requires !(s.envs[e].running && s.envs[e].cpu != c)
    ensures s.phase[d] != FreePages(e)
  {
    assert CpuOk(s, c) && CpuOk(s, d);
    var p := s.cur[c].e;
    assert EnvOk(s, p);
    if s.phase[d] == FreePages(e) {
      assert d != c;
      if e != p {
        if s.cur[d] == Of(e) {
          var w: nat :| w < NCPU(s) && s.phase[w] == WaitRemote(e, s.envs[e].id);
          assert CpuOk(s, w) && EnvOk(s, e);
          IdUnique(s, s.cur[w].e, p);
          OwnerUnique(s, w, c, p);
        } else {
          IdUnique(s, s.cur[d].e, p);
          OwnerUnique(s, d, c, p);
        }
      }
    }
  }

  /** A kill mark on a live env, put by CPU c. */
  ghost predicate Marks(s: State, r: State, c: nat, e: nat) {
    && Shape(s) && Shape(r) && NCPU(r) == NCPU(s) && c < NCPU(s) && e < NENV && s.envs[e].status != FREE
    && r.freed == s.freed && r.made == s.made && r.freeList == s.freeList && r.cur == s.cur && r.queue == s.queue
    && (forall x :: 0 <= x < NENV && x != e ==> r.envs[x] == s.envs[x])
    && (r.envs[e] == s.envs[e].(killPending := true) || r.envs[e] == s.envs[e].(killPending := true, killDone := false))
    && r.phase == s.phase[c := r.phase[c]] && (r.phase[c] == FreePages(e) || r.phase[c] == WaitRemote(e, s.envs[e].id))
    && !s.phase[c].WaitRemote? && !s.phase[c].FreePages?
  }

  /** Whom c owns is settled, and whoever c stops owning is the env it frees. */
  ghost predicate MarksOwner(s: State, r: State, c: nat, e: nat)
    requires Marks(s, r, c, e)
  {
    && CpuOk(r, c)
    && (s.envs[e].running && s.envs[e].cpu == c ==> Owner(r, c) == Of(e) || FreeingSelf(r, c, e))
    && (Owner(s, c) != Of(e) ==> Owner(r, c) == Owner(s, c))
  }

  lemma MarksEnv(s: State, r: State, c: nat, e: nat, x: nat)
    requires Inv(s) && Marks(s, r, c, e) && MarksOwner(s, r, c, e) && x < NENV
    ensures EnvOk(r, x)
  {
    hide Inv;
    EnvAt(s, x);
    assert x == e ==> Handles(r, c, e);
    if x != e && s.envs[x].status != FREE && s.envs[x].killPending {
      var d: nat :| Handles(s, d, x);
      assert Handles(r, d, x);
    }
  }

  lemma MarksCpu(s: State, r: State, c: nat, e: nat, d: nat)
    requires Inv(s) && Marks(s, r, c, e) && MarksOwner(s, r, c, e) && d < NCPU(s)
    ensures CpuOk(r, d)
  {
    hide Inv;
    CpuAt(s, d);
    if d != c && s.phase[d].FreePages? && s.cur[d] == Of(s.phase[d].e) && !s.envs[s.phase[d].e].running {
      var w: nat :| w < NCPU(s) && s.phase[w] == WaitRemote(s.phase[d].e, s.envs[s.phase[d].e].id);
      assert r.phase[w] == s.phase[w];
    }
  }

  lemma MarksInv(s: State, r: State, c: nat, e: nat)
    requires Inv(s) && Marks(s, r, c, e) && MarksOwner(s, r, c, e)
    requires forall d: nat :: d < NCPU(s) ==> FreeApart(r, c, d) && FreeApart(r, d, c)
    ensures Inv(r)
  {
    forall x: nat | x < NENV ensures EnvOk(r, x) { MarksEnv(s, r, c, e, x); }
    forall d: nat | d < NCPU(r) ensures CpuOk(r, d) { MarksCpu(s, r, c, e, d); }
    forall d: nat, d': nat | d < NCPU(r) && d' < NCPU(r) ensures FreeApart(r, d, d') { assert FreeApart(s, d, d'); }
    hide EnvOk, CpuOk;
  }

  lemma DestroyInv(s: State, c: nat, e: nat)
    requires Inv(s) && Refs(s) && Enabled(s, Destroy(c, e))
    ensures Inv(Next(s, Destroy(c, e)))
  {
    var r := Next(s, Destroy(c, e));
    assert CpuOk(s, c) && EnvOk(s, e) && EnvOk(s, s.cur[c].e);
    var ph := if s.envs[e].running && s.envs[e].cpu != c then WaitRemote(e, s.envs[e].id) else FreePages(e);
    assert r.phase == s.phase[c := ph];
    if ph.FreePages? {
      forall d: nat | d < NCPU(s) ensures FreeApart(r, c, d) && FreeApart(r, d, c) {
        NoOtherFreer(s, c, e, d);
      }
    }
    assert Marks(s, r, c, e);
    assert CpuOk(r, c);
    MarksInv(s, r, c, e);
  }

  /** A CPU finds the mark on its own env: it starts to free it. */
  lemma KilledInv(s: State, c: nat)
    requires Inv(s) && Refs(s) && Enabled(s, CheckKill(c)) && s.cur[c].Of? && s.envs[s.cur[c].e].killPending
    ensures Inv(Next(s, CheckKill(c)))
  {
    var r := Next(s, CheckKill(c));
    var e := s.cur[c].e;
    assert CpuOk(s, c) && EnvOk(s, e);
    forall d: nat | d < NCPU(s) ensures FreeApart(r, c, d) && FreeApart(r, d, c) {
      assert CpuOk(s, d);
    }
    assert r.envs[e] == s.envs[e].(killPending := true);
    assert r.phase == s.phase[c := FreePages(e)];
    assert Marks(s, r, c, e);
    MarksInv(s, r, c, e);
  }

  lemma WaitOverEnv(s: State, c: nat, x: nat)
    requires Inv(s) && Refs(s) && Enabled(s, WaitOver(c)) && x < NENV
    ensures EnvOk(Next(s, WaitOver(c)), x)
  {
    hide Inv;
    CpuAt(s, c);
    EnvAt(s, x);
    if s.envs[x].status != FREE && s.envs[x].killPending {
      var d: nat :| Handles(s, d, x);
      assert Handles(Next(s, WaitOver(c)), d, x);
    }
  }

  lemma WaitOverCpu(s: State, c: nat, d: nat)
    requires Inv(s) && Refs(s) && Enabled(s, WaitOver(c)) && d < NCPU(s)
    ensures CpuOk(Next(s, WaitOver(c)), d)
  {
    hide Inv;
    CpuAt(s, c);
    CpuAt(s, d);
    if s.phase[d].FreePages? && s.cur[d] == Of(s.phase[d].e) && !s.envs[s.phase[d].e].running {
      var w: nat :| w < NCPU(s) && s.phase[w] == WaitRemote(s.phase[d].e, s.envs[s.phase[d].e].id);
      EnvAt(s, s.phase[d].e);
      assert Next(s, WaitOver(c)).phase[w] == s.phase[w];
    }
  }

  lemma WaitOverInv(s: State, c: nat)
    requires Inv(s) && Refs(s) && Enabled(s, WaitOver(c))
    ensures Inv(Next(s, WaitOver(c)))
  {
    var r := Next(s, WaitOver(c));
    forall x: nat | x < NENV ensures EnvOk(r, x) { WaitOverEnv(s, c, x); }
    forall d: nat | d < NCPU(r) ensures CpuOk(r, d) { WaitOverCpu(s, c, d); }
    hide EnvOk, CpuOk;
    forall d: nat, d': nat | d < NCPU(r) && d' < NCPU(r) ensures FreeApart(r, d, d') { assert FreeApart(s, d, d'); }
  }

  /** The locked section of env_free. */
  lemma FreeInv(s: State, c: nat)
    requires Inv(s) && Refs(s) && Enabled(s, Free(c))
    ensures Inv(Next(s, Free(c)))
  {
    var r := Next(s, Free(c));
    var e := s.phase[c].e;
    assert CpuOk(s, c) && EnvOk(s, e);
    AppendDistinct(s.freed, s.envs[e].id);
    forall x: nat | x < NENV ensures EnvOk(r, x) { FreeOther(s, c, x); }
    forall d: nat | d < NCPU(r) ensures CpuOk(r, d) { FreeCpu(s, c, d); }
    ListsAfterFree(s, c);
    hide CpuOk, ListsOk;
    forall d: nat, d': nat | d < NCPU(r) && d' < NCPU(r) ensures FreeApart(r, d, d') { assert FreeApart(s, d, d'); }
  }

  lemma FreeOther(s: State, c: nat, x: nat)
    requires Inv(s) && Refs(s) && Enabled(s, Free(c)) && x < NENV
    ensures EnvOk(Next(s, Free(c)), x)
  {
    var r, e := Next(s, Free(c)), s.phase[c].e;
    CpuAt(s, c);
    EnvAt(s, e);
    EnvAt(s, x);
    if x != e && s.envs[x].id == s.envs[e].id { IdUnique(s, e, x); }
    hide Inv;
    if x != e && s.envs[x].status != FREE && s.envs[x].killPending {
      var d: nat :| Handles(s, d, x);
      assert Handles(r, d, x);
    }
  }

  lemma ListsAfterFree(s: State, c: nat)
    requires Inv(s) && Refs(s) && Enabled(s, Free(c))
    ensures ListsOk(Next(s, Free(c)))
  {
    var r := Next(s, Free(c));
    var e := s.phase[c].e;
    assert CpuOk(s, c);
    assert r.freeList[0] == e && forall i :: 0 < i < |r.freeList| ==> r.freeList[i] == s.freeList[i - 1];
    forall x: nat ensures x in r.freeList <==> x in s.freeList || x == e {}
  }

  lemma FreeCpu(s: State, c: nat, d: nat)
    requires Inv(s) && Refs(s) && Enabled(s, Free(c)) && d < NCPU(s)
    ensures CpuOk(Next(s, Free(c)), d)
  {
    CpuAt(s, d);
    if d != c {
      FreeOtherCpu(s, c, d);
    }
    hide Inv;
  }

  lemma FreeOtherCpu(s: State, c: nat, d: nat)
    requires Inv(s) && Refs(s) && Enabled(s, Free(c)) && d < NCPU(s) && d != c
    ensures CpuOk(Next(s, Free(c)), d)
  {
    var r := Next(s, Free(c));
    var e := s.phase[c].e;
    CpuAt(s, c); CpuAt(s, d); ApartAt(s, c, d);
    EnvAt(s, e);
    assert s.cur[d].Of? ==> s.cur[d].e < NENV;
    hide Inv;
    if s.phase[d].FreePages? {
      assert s.phase[d].e != e;
      if s.cur[d] == Of(s.phase[d].e) && !s.envs[s.phase[d].e].running {
        var w: nat :| w < NCPU(s) && s.phase[w] == WaitRemote(s.phase[d].e, s.envs[s.phase[d].e].id);
        assert r.phase[w] == s.phase[w];
      }
    }
  }

  /** sys_ipc_recv up to its schedule call. */
  function Blocked(s: State, c: nat): (r: State)
    requires Shape(s) && c < NCPU(s) && s.cur[c].Of? && s.cur[c].e < NENV
  {
    var e := s.cur[c].e;
    var v := s.envs[e].(recving := true, status := NOT_RUNNABLE, running := false, cpu := -1);
    WithEnv(s, e, v).(queue := Without(s.queue, e))
  }

  lemma BlockedInv(s: State, c: nat)
    requires Inv(s) && Refs(s) && Enabled(s, Recv(c))
    ensures LetsGo(s, Goto(Blocked(s, c), c, Spin), c, s.cur[c].e)
    ensures Inv(Goto(Blocked(s, c), c, Spin))
  {
    var e := s.cur[c].e;
    assert CpuOk(s, c) && EnvOk(s, e);
    var b := Goto(Blocked(s, c), c, Spin);
    assert LetsGo(s, b, c, e);
    LetsGoInv(s, b, c, e);
  }

  lemma ReceiveInv(s: State, c: nat)
    requires Inv(s) && Refs(s) && Enabled(s, Recv(c))
    ensures Inv(Next(s, Recv(c)))
  {
    var e := s.cur[c].e;
    var a := Blocked(s, c);
    var b := Goto(a, c, Spin);
    BlockedInv(s, c);
    InvRefs(b);
    hide Inv, LetsGo, Pick;
    if s.envs[e].killPending {
      ReceiveKilled(s, b, c, e);
      assert Next(s, Recv(c)) == Goto(b, c, FreePages(e));
    } else {
      PickInv(b, c);
      PickFromAnywhere(a, c);
      assert Deschedule(a, e) == a;
    }
  }

  /** A marked env that blocks in sys_ipc_recv is freed by its CPU; its killer still waits. */
  lemma ReceiveKilled(s: State, b: State, c: nat, e: nat)
    requires Inv(s) && Inv(b) && LetsGo(s, b, c, e) && s.envs[e].killPending && s.envs[e].status != FREE
    ensures Inv(Goto(b, c, FreePages(e)))
  {
    var r := Goto(b, c, FreePages(e));
    assert CpuOk(s, c) && EnvOk(s, e) && CpuOk(b, c) && EnvOk(b, e);
    var h: nat :| Handles(s, h, e);
    assert CpuOk(s, h);
    assert s.phase[h] == WaitRemote(e, s.envs[e].id);
    assert h != c && r.phase[h] == s.phase[h];
    forall d: nat | d < NCPU(s) ensures FreeApart(r, c, d) && FreeApart(r, d, c) {
      assert CpuOk(s, d);
    }
    assert CpuOk(r, c);
    assert Marks(b, r, c, e);
    MarksInv(b, r, c, e);
  }

  lemma ForkInv(s: State, c: nat)
    requires Inv(s) && Refs(s) && Enabled(s, Fork(c))
    ensures Inv(Next(s, Fork(c)))
  {
    var r := Next(s, Fork(c));
    var e := s.freeList[0];
    assert e in s.freeList;
    assert CpuOk(s, c) && EnvOk(s, e);
    var id := (s.made + 1) * IDSTEP + e;
    assert id / IDSTEP == s.made + 1 && id % IDSTEP == e;
    assert s.freeList == [e] + r.freeList;
    forall x: nat | x < NENV ensures EnvOk(r, x) {
      assert EnvOk(s, x);
      if x != e && s.envs[x].status != FREE && s.envs[x].killPending {
        var d: nat :| Handles(s, d, x);
        assert Handles(r, d, x);
      }
    }
    forall d: nat | d < NCPU(r) ensures CpuOk(r, d) {
      ForkCpu(s, c, d);
    }
    forall d: nat, d': nat | d < NCPU(r) && d' < NCPU(r) ensures FreeApart(r, d, d') { assert FreeApart(s, d, d'); }
  }

  lemma ForkCpu(s: State, c: nat, d: nat)
    requires Inv(s) && Refs(s) && Enabled(s, Fork(c)) && d < NCPU(s)
    ensures CpuOk(Next(s, Fork(c)), d)
  {
    var r := Next(s, Fork(c));
    var e := s.freeList[0];
    assert e in s.freeList;
    assert CpuOk(s, d) && EnvOk(s, e);
    if Owner(s, d).Of? { assert EnvOk(s, Owner(s, d).e); }
    if s.phase[d].FreePages? && s.cur[d] == Of(s.phase[d].e) && !s.envs[s.phase[d].e].running {
      var w: nat :| w < NCPU(s) && s.phase[w] == WaitRemote(s.phase[d].e, s.envs[s.phase[d].e].id);
      assert r.phase[w] == s.phase[w];
    }
  }

  lemma StepInv(s: State, x: Step)
    requires Inv(s) && Refs(s) && Enabled(s, x)
    ensures Inv(Next(s, x))
  {
    match x
    case Fork(c) => ForkInv(s, c);
    case Status(c, e, st) => SetStatusInv(s, c, e, st);
    case Trap(_, _) => PhaseStepInv(s, x);
    case CheckKill(c) =>
      if s.cur[c].Of? && s.envs[s.cur[c].e].killPending { KilledInv(s, c); } else { PhaseStepInv(s, x); }
    case Schedule(c) => ScheduleInv(s, c);
    case Retry(c) => PickInv(s, c);
    case Run(_) => PhaseStepInv(s, x);
    case Destroy(c, e) => DestroyInv(s, c, e);
    case Free(c) => FreeInv(s, c);
    case FreeReturn(_) => PhaseStepInv(s, x);
    case WaitOver(c) => WaitOverInv(s, c);
    case Recv(c) => ReceiveInv(s, c);
    case SendClaim(_, _) => PhaseStepInv(s, x);
    case SendFinish(c) => SendFinishInv(s, c);
    case SendAbort(_) => PhaseStepInv(s, x);
  }
}
