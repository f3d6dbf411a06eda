/** When does a pipe look closed?  _pipe_is_closed compares the reference count of an end's
    descriptor page with that of the pipe's data page.  The answer depends on the order in
    which close, dup and the death of an env map and unmap the two pages, since any env can
    look in between. */
module PipeEof {
  import opened Sets

  /** What is mapped at one descriptor of one env: the page of the read or the write end of the
      pipe, of some other file, or nothing; and the pipe's data page or not. */
  datatype End = Nothing | ReadEnd | WriteEnd | OtherFile

  datatype Cell = Cell(fd: End, data: bool)

  datatype Slot = Slot(env: nat, num: nat)

  /** Where an env is: in close of n (its fd page is unmapped), in dup of src to dst, in the
      two unmaps of a failed dup, or being freed. */
  datatype Pc =
    | Idle
    | CloseData(n: nat)
    | DupClose(src: nat, dst: nat)
    | DupData(src: nat, dst: nat)
    | DupFd(src: nat, dst: nat)
    | FailFd(n: nat)
    | FailData(n: nat)
    | Dying

  datatype State = State(cells: map<Slot, Cell>, pcs: map<nat, Pc>)

  datatype Step =
    | CloseStart(e: nat, n: nat)
    | CloseEnd(e: nat)
    | DupStart(e: nat, src: nat, dst: nat)
    | DupCloseEnd(e: nat)
    | MapData(e: nat, ok: bool)
    | MapFd(e: nat, ok: bool)
    | UndoFd(e: nat)
    | UndoData(e: nat)
    | Fork(e: nat, child: nat)
    | Kill(e: nat)
    | FreeFd(e: nat, n: nat)
    | FreeData(e: nat, n: nat)
    | Retire(e: nat)

  predicate IsPipe(k: End) { k == ReadEnd || k == WriteEnd }

  function At(s: State, e: nat, n: nat): (c: Cell) {
    if Slot(e, n) in s.cells then s.cells[Slot(e, n)] else Cell(Nothing, false)
  }

  function Put(s: State, e: nat, n: nat, c: Cell): (r: State) { s.(cells := s.cells[Slot(e, n) := c]) }

  function Go(s: State, e: nat, pc: Pc): (r: State) { s.(pcs := s.pcs[e := pc]) }

  function PcOf(s: State, e: nat): (pc: Pc) { if e in s.pcs then s.pcs[e] else Idle }

  ghost predicate Enabled(s: State, x: Step) {
    x.e in s.pcs &&
    match x
    case CloseStart(e, n) => PcOf(s, e).Idle? && At(s, e, n).fd != Nothing
    case CloseEnd(e) => PcOf(s, e).CloseData?
    case DupStart(e, src, n) => PcOf(s, e).Idle? && At(s, e, src).fd != Nothing
    case DupCloseEnd(e) => PcOf(s, e).DupClose?
    case MapData(e, _) => PcOf(s, e).DupData?
    case MapFd(e, _) => PcOf(s, e).DupFd?
    case UndoFd(e) => PcOf(s, e).FailFd?
    case UndoData(e) => PcOf(s, e).FailData?
    case Fork(e, c) => PcOf(s, e).Idle? && c !in s.pcs && forall n :: Slot(c, n) !in s.cells
    case Kill(e) => !PcOf(s, e).Dying?
    case FreeFd(e, n) => PcOf(s, e).Dying?
    case FreeData(e, n) => PcOf(s, e).Dying? && forall m :: !IsPipe(At(s, e, m).fd)
    case Retire(e) => PcOf(s, e).Dying? && forall m :: !IsPipe(At(s, e, m).fd) && !At(s, e, m).data
  }

  /** The child's descriptors: LIBRARY pages are shared. */
  function Inherited(s: State, e: nat, c: nat): (r: map<Slot, Cell>) {
    var given := set b | b in s.cells && b.env == e :: Slot(c, b.num);
    s.cells + map a | a in given && Slot(e, a.num) in s.cells :: s.cells[Slot(e, a.num)]
  }

  function Next(s: State, x: Step): (r: State)
    requires Enabled(s, x)
  {
    match x
    case CloseStart(e, n) =>
      var c := At(s, e, n);
      Go(Put(s, e, n, c.(fd := Nothing)), e, if IsPipe(c.fd) then CloseData(n) else Idle)
    case CloseEnd(e) =>
      var n := PcOf(s, e).n;
      Go(Put(s, e, n, Cell(Nothing, false)), e, Idle)
    case DupStart(e, src, n) =>
      var c := At(s, e, n);
      if c.fd == Nothing then Go(s, e, DupData(src, n))
      else Go(Put(s, e, n, c.(fd := Nothing)), e, if IsPipe(c.fd) then DupClose(src, n) else DupData(src, n))
    case DupCloseEnd(e) =>
      var (src, n) := (PcOf(s, e).src, PcOf(s, e).dst);
      Go(Put(s, e, n, Cell(Nothing, false)), e, DupData(src, n))
    case MapData(e, ok) =>
      var (src, n) := (PcOf(s, e).src, PcOf(s, e).dst);
      if !At(s, e, src).data then Go(s, e, DupFd(src, n))
      else if ok then Go(Put(s, e, n, At(s, e, n).(data := true)), e, DupFd(src, n))
      else Go(s, e, FailFd(n))
    case MapFd(e, ok) =>
      var (src, n) := (PcOf(s, e).src, PcOf(s, e).dst);
      if ok && At(s, e, src).fd != Nothing then Go(Put(s, e, n, At(s, e, n).(fd := At(s, e, src).fd)), e, Idle)
      else Go(s, e, FailFd(n))
    case UndoFd(e) =>
      var n := PcOf(s, e).n;
      Go(Put(s, e, n, At(s, e, n).(fd := Nothing)), e, FailData(n))
    case UndoData(e) =>
      var n := PcOf(s, e).n;
      Go(Put(s, e, n, At(s, e, n).(data := false)), e, Idle)
    case Fork(e, c) => s.(cells := Inherited(s, e, c), pcs := s.pcs[c := Idle])
    case Kill(e) => Go(s, e, Dying)
    case FreeFd(e, n) => Put(s, e, n, At(s, e, n).(fd := Nothing))
    case FreeData(e, n) => Put(s, e, n, At(s, e, n).(data := false))
    case Retire(e) => s.(cells := map a | a in s.cells && a.env != e :: s.cells[a], pcs := s.pcs - {e})
  }

  // ---------------------------------------------------------------------------
  // Reference counts

  function Ends(s: State, k: End): (r: set<Slot>) { set a | a in s.cells && s.cells[a].fd == k }

  function Datas(s: State): (r: set<Slot>) { set a | a in s.cells && s.cells[a].data }

  function FdRefs(s: State, k: End): (r: nat) { |Ends(s, k)| }

  function PipeRefs(s: State): (r: nat) { |Datas(s)| }

  function Other(k: End): (r: End) { if k == ReadEnd then WriteEnd else ReadEnd }

  /** _pipe_is_closed with its two counts read at one moment. */
  predicate LooksClosed(s: State, k: End) { FdRefs(s, k) == PipeRefs(s) }

  // ---------------------------------------------------------------------------
  // The invariant

  /** A mapped end always has the data page beside it, and an idle env keeps no data page
      without an end. */
  ghost predicate CellOk(s: State, e: nat, n: nat) {
    var c, pc := At(s, e, n), PcOf(s, e);
    && (IsPipe(c.fd) ==> c.data)
    && (c.data && !IsPipe(c.fd) ==> e in s.pcs && Unfinished(pc, n))
    && (Slot(e, n) in s.cells ==> e in s.pcs)
    && (pc.DupFd? && n == pc.src && IsPipe(c.fd) && pc.dst != pc.src ==> At(s, e, pc.dst).data)
    && (pc.DupFd? && n == pc.dst && c.data ==> pc.dst != pc.src && IsPipe(At(s, e, pc.src).fd))
    && (pc.DupData? && n == pc.dst ==> !IsPipe(c.fd) && !c.data)
    && (pc.DupFd? && n == pc.dst ==> !IsPipe(c.fd))
    && ((pc.FailFd? || pc.FailData?) && n == pc.n ==> !IsPipe(c.fd))
    && (pc.CloseData? && n == pc.n ==> !IsPipe(c.fd))
  }

  /** The operation of an env may still leave the data page at n without an end. */
  predicate Unfinished(pc: Pc, n: nat) {
    match pc
    case Idle => false
    case CloseData(m) => n == m
    case DupClose(_, m) => n == m
    case DupData(_, m) => false
    case DupFd(_, m) => n == m
    case FailFd(m) => n == m
    case FailData(m) => n == m
    case Dying => true
  }

  ghost predicate Inv(s: State) { forall e, n :: CellOk(s, e, n) }

  lemma CellAt(s: State, e: nat, n: nat)
    requires Inv(s)
    ensures CellOk(s, e, n)
  {
  }

  lemma ForkCell(s: State, x: Step, e: nat, n: nat)
    requires Inv(s) && Enabled(s, x) && x.Fork?
    ensures CellOk(Next(s, x), e, n)
  {
    hide Inv;
    CellAt(s, e, n);
    CellAt(s, x.e, n);
  }

  lemma CloseCell(s: State, x: Step, e: nat, n: nat)
    requires Inv(s) && Enabled(s, x) && (x.CloseStart? || x.CloseEnd? || x.UndoFd? || x.UndoData?)
    ensures CellOk(Next(s, x), e, n)
  {
    hide Inv, Inherited;
    CellAt(s, e, n);
  }

  lemma DupOpens(s: State, x: Step, e: nat, n: nat)
    requires Inv(s) && Enabled(s, x) && (x.DupStart? || x.DupCloseEnd?)
    ensures CellOk(Next(s, x), e, n)
  {
    hide Inv, Inherited;
    CellAt(s, e, n);
    CellAt(s, x.e, if x.DupStart? then x.dst else PcOf(s, x.e).dst);
  }

  lemma DupMaps(s: State, x: Step, e: nat, n: nat)
    requires Inv(s) && Enabled(s, x) && (x.MapData? || x.MapFd?)
    ensures CellOk(Next(s, x), e, n)
  {
    hide Inv, Inherited;
    CellAt(s, e, n);
    CellAt(s, x.e, PcOf(s, x.e).src);
    CellAt(s, x.e, PcOf(s, x.e).dst);
  }

  lemma DeathCell(s: State, x: Step, e: nat, n: nat)
    requires Inv(s) && Enabled(s, x) && (x.Kill? || x.FreeFd? || x.FreeData? || x.Retire?)
    ensures CellOk(Next(s, x), e, n)
  {
    hide Inv, Inherited;
    CellAt(s, e, n);
  }

  lemma StepCell(s: State, x: Step, e: nat, n: nat)
    requires Inv(s) && Enabled(s, x)
    ensures CellOk(Next(s, x), e, n)
  {
    hide Inv, Enabled, Next, CellOk;
    if x.Fork? { ForkCell(s, x, e, n); }
    else if x.CloseStart? || x.CloseEnd? || x.UndoFd? || x.UndoData? { CloseCell(s, x, e, n); }
    else if x.DupStart? || x.DupCloseEnd? { DupOpens(s, x, e, n); }
    else if x.MapData? || x.MapFd? { DupMaps(s, x, e, n); }
    else { DeathCell(s, x, e, n); }
  }

  lemma StepInv(s: State, x: Step)
    requires Inv(s) && Enabled(s, x)
    ensures Inv(Next(s, x))
  {
    var t := Next(s, x);
    hide Next, Enabled, CellOk;
    forall e, n ensures CellOk(t, e, n) { StepCell(s, x, e, n); }
  }

  // ---------------------------------------------------------------------------
  // What the counts say in one state

  lemma EndsHaveData(s: State)
    requires Inv(s)
    ensures Ends(s, ReadEnd) <= Datas(s) && Ends(s, WriteEnd) <= Datas(s)
  {
    forall a | a in Ends(s, ReadEnd) || a in Ends(s, WriteEnd) ensures a in Datas(s) {
      CellAt(s, a.env, a.num);
      assert Slot(a.env, a.num) == a;
    }
  }

  /** The data page is referenced at least once for every open end. */
  lemma RefsBound(s: State)
    requires Inv(s)
    ensures PipeRefs(s) >= FdRefs(s, ReadEnd) + FdRefs(s, WriteEnd)
  {
    EndsHaveData(s);
    var r, w := Ends(s, ReadEnd), Ends(s, WriteEnd);
    assert r !! w;
    SubsetSize(r + w, Datas(s));
  }

  /** The end k sees the pipe closed exactly when nobody maps the data page but at an open k. */
  lemma LooksClosedIff(s: State, k: End)
    requires Inv(s) && IsPipe(k)
    ensures LooksClosed(s, k) <==> forall a :: a in Datas(s) ==> a in Ends(s, k)
  {
    EndsHaveData(s);
    SubsetSize(Ends(s, k), Datas(s));
    if forall a :: a in Datas(s) ==> a in Ends(s, k) {
      assert Ends(s, k) == Datas(s);
    }
  }

  lemma ClosedMeansClosed(s: State, k: End)
    requires Inv(s) && IsPipe(k) && LooksClosed(s, k)
    ensures Ends(s, Other(k)) == {}
  {
    RefsBound(s);
  }

  // ---------------------------------------------------------------------------
  // Whole runs

  ghost predicate Legal(s: State, xs: seq<Step>)
    decreases |xs|
  {
    xs == [] || (Enabled(s, xs[0]) && Legal(Next(s, xs[0]), xs[1..]))
  }

  ghost function Run(s: State, xs: seq<Step>): (r: State)
    requires Legal(s, xs)
    decreases |xs|
  {
    if xs == [] then s else Run(Next(s, xs[0]), xs[1..])
  }

  /** After pipe() has returned: ends and data pages go together and nobody is half way. */
  ghost predicate Init(s: State) {
    && (forall a :: a in s.cells ==> a.env in s.pcs && (IsPipe(s.cells[a].fd) <==> s.cells[a].data))
    && (forall e :: e in s.pcs ==> s.pcs[e] == Idle)
  }

  lemma {:induction false} RunInv(s: State, xs: seq<Step>)
    requires Inv(s) && Legal(s, xs)
    ensures Inv(Run(s, xs))
    decreases |xs|
  {
    hide Inv, Next, Enabled;
    if xs != [] {
      StepInv(s, xs[0]);
      RunInv(Next(s, xs[0]), xs[1..]);
    }
  }

  /** No operation makes an end of which none is left. */
  lemma StaysGoneStep(s: State, x: Step, k: End)
    requires Enabled(s, x) && IsPipe(k) && Ends(s, k) == {}
    ensures Ends(Next(s, x), k) == {}
  {
    var t := Next(s, x);
    forall a | a in t.cells ensures t.cells[a].fd != k {
      assert forall b :: b in s.cells ==> b !in Ends(s, k);
    }
  }

  lemma {:induction false} StaysGone(s: State, xs: seq<Step>, k: End)
    requires Legal(s, xs) && IsPipe(k) && Ends(s, k) == {}
    ensures Ends(Run(s, xs), k) == {}
    decreases |xs|
  {
    hide Next, Enabled, Ends;
    if xs != [] {
      StaysGoneStep(s, xs[0], k);
      StaysGone(Next(s, xs[0]), xs[1..], k);
    }
  }

  /** End of file is never announced early: at any moment of any run, if one end sees the pipe
      closed then no descriptor of the other end is open, nor will one be at any later moment. */
  lemma NeverClosedWhileOpen(s: State, xs: seq<Step>, k: End, ys: seq<Step>)
    requires Init(s) && Legal(s, xs) && IsPipe(k) && LooksClosed(Run(s, xs), k) && Legal(Run(s, xs), ys)
    ensures FdRefs(Run(Run(s, xs), ys), Other(k)) == 0
  {
    RunInv(s, xs);
    hide Inv;
    ClosedMeansClosed(Run(s, xs), k);
    StaysGone(Run(s, xs), ys, Other(k));
  }

  /** No operation is half way: every env is idle, or being freed with its data pages gone. */
  ghost predicate Quiet(s: State) {
    forall e, n: nat :: e in s.pcs ==> s.pcs[e] == Idle || (s.pcs[e] == Dying && !At(s, e, n).data)
  }

  /** And it is announced in time: once no operation is half way, an end sees the pipe closed
      exactly when the other end has no descriptor left. */
  lemma ClosedWhenQuiet(s: State, xs: seq<Step>, k: End)
    requires Init(s) && Legal(s, xs) && IsPipe(k) && Quiet(Run(s, xs))
    ensures LooksClosed(Run(s, xs), k) <==> FdRefs(Run(s, xs), Other(k)) == 0
  {
    RunInv(s, xs);
    var t := Run(s, xs);
    LooksClosedIff(t, k);
    EndsHaveData(t);
    if FdRefs(t, Other(k)) == 0 {
      forall a | a in Datas(t) ensures a in Ends(t, k) {
        CellAt(t, a.env, a.num);
        assert a !in Ends(t, Other(k)) && Slot(a.env, a.num) == a;
      }
    } else {
      RefsBound(t);
    }
  }

  /** The descriptors of e that map an end, and those that map the data page. */
  ghost function EndsOf(s: State, e: nat): (r: set<Slot>) {
    set a | a in s.cells && a.env == e && IsPipe(s.cells[a].fd)
  }

  ghost function DatasOf(s: State, e: nat): (r: set<Slot>) { set a | a in s.cells && a.env == e && s.cells[a].data }

  /** Death is no obstacle: from any state, the steps of env_free alone retire a dying env. */
  lemma {:induction false} DeathEnds(s: State, e: nat) returns (xs: seq<Step>)
    requires e in s.pcs && s.pcs[e] == Dying
    ensures Legal(s, xs) && e !in Run(s, xs).pcs && forall k :: 0 <= k < |xs| ==> xs[k].e == e
    decreases |EndsOf(s, e)|, |DatasOf(s, e)|
  {
    var x;
    if n: nat :| IsPipe(At(s, e, n).fd) {
      x := FreeFd(e, n);
      assert Slot(e, n) in EndsOf(s, e) && EndsOf(Next(s, x), e) == EndsOf(s, e) - {Slot(e, n)};
    } else if n: nat :| At(s, e, n).data {
      x := FreeData(e, n);
      assert Slot(e, n) in DatasOf(s, e) && DatasOf(Next(s, x), e) == DatasOf(s, e) - {Slot(e, n)};
      assert EndsOf(s, e) == {} && EndsOf(Next(s, x), e) == {} by {
        forall a | a in s.cells && a.env == e ensures !IsPipe(s.cells[a].fd) {
          assert a == Slot(e, a.num) && !IsPipe(At(s, e, a.num).fd);
        }
      }
    } else {
      assert [Retire(e)][1..] == [];
      return [Retire(e)];
    }
    var ys := DeathEnds(Next(s, x), e);
    xs := [x] + ys;
    assert xs[1..] == ys;
  }

  // ---------------------------------------------------------------------------
  // The two counts read at different moments

  /** With the descriptor's count read in s and the data page's in a later t, "closed" is right
      as long as no descriptor of the asking end has gone in between. */
  lemma SplitReadRight(s: State, t: State, k: End)
    requires Inv(t) && IsPipe(k) && FdRefs(s, k) == PipeRefs(t) && FdRefs(t, k) >= FdRefs(s, k)
    ensures FdRefs(t, Other(k)) == 0
  {
    RefsBound(t);
  }

  lemma QuietRefs(s: State)
    requires Inv(s) && Quiet(s)
    ensures PipeRefs(s) == FdRefs(s, ReadEnd) + FdRefs(s, WriteEnd)
  {
    EndsHaveData(s);
    var r, w := Ends(s, ReadEnd), Ends(s, WriteEnd);
    forall a | a in Datas(s) ensures a in r + w {
      CellAt(s, a.env, a.num);
      assert Slot(a.env, a.num) == a;
    }
    assert r + w == Datas(s) && r !! w;
  }

  /** Exactly then, when no operation is half way at the second read. */
  lemma SplitReadExact(s: State, t: State, k: End)
    requires Inv(t) && Quiet(t) && IsPipe(k) && FdRefs(s, k) == PipeRefs(t)
    ensures FdRefs(t, Other(k)) == 0 <==> FdRefs(t, k) == FdRefs(s, k)
  {
    QuietRefs(t);
  }

  /** It is wrong when one has: two readers and a writer, and the other reader closes between
      the two reads.  Both counts are then 2 and the reader sees the end of the file with the
      writer still open. */
  lemma SplitReadWrong()
    ensures exists s, xs :: Init(s) && Legal(s, xs)
              && FdRefs(s, ReadEnd) == PipeRefs(Run(s, xs)) && FdRefs(Run(s, xs), WriteEnd) == 1
  {
    var a, b, c := Slot(0, 0), Slot(1, 0), Slot(2, 1);
    var s := State(map[a := Cell(ReadEnd, true), b := Cell(ReadEnd, true), c := Cell(WriteEnd, true)],
                   map[0 := Idle, 1 := Idle, 2 := Idle]);
    var s1 := Next(s, CloseStart(1, 0));
    var s2 := Next(s1, CloseEnd(1));
    assert s2.cells == map[a := Cell(ReadEnd, true), b := Cell(Nothing, false), c := Cell(WriteEnd, true)];
    assert Ends(s, ReadEnd) == {a, b} && Datas(s2) == {a, c} && Ends(s2, WriteEnd) == {c};
    RunTwo(s, CloseStart(1, 0), CloseEnd(1));
  }

  lemma RunTwo(s: State, x: Step, y: Step)
    requires Enabled(s, x) && Enabled(Next(s, x), y)
    ensures Legal(s, [x, y]) && Run(s, [x, y]) == Next(Next(s, x), y)
  {
    hide Enabled, Next;
    var a := Next(s, x);
    var b := Next(a, y);
    assert [x, y][1..] == [y] && [y][1..] == [];
    assert Legal(b, []) && Run(b, []) == b;
    assert Legal(a, [y]) && Run(a, [y]) == b;
  }

  // ---------------------------------------------------------------------------
  // What dup and fork leave

  /** Other envs do not touch the descriptors of e. */
  lemma OthersLeave(s: State, x: Step, e: nat, n: nat)
    requires Enabled(s, x) && e in s.pcs && x.e != e
    ensures At(Next(s, x), e, n) == At(s, e, n) && e in Next(s, x).pcs && PcOf(Next(s, x), e) == PcOf(s, e)
  {
  }

  /** A step of dup that succeeds. */
  predicate DupStep(x: Step) { x.DupCloseEnd? || (x.MapData? && x.ok) || (x.MapFd? && x.ok) }

  /** In m, where e is in a dup of src to dst that began with `was` at src, or has ended it. */
  ghost predicate Dupping(m: State, e: nat, src: nat, dst: nat, was: Cell) {
    && e in m.pcs && At(m, e, src) == was
    && match PcOf(m, e)
       case DupClose(a, b) => (a, b) == (src, dst)
       case DupData(a, b) => (a, b) == (src, dst) && At(m, e, dst) == Cell(Nothing, false)
       case DupFd(a, b) => (a, b) == (src, dst) && At(m, e, dst) == Cell(Nothing, was.data)
       case Idle => At(m, e, dst) == was
       case _ => false
  }

  lemma DupBegins(s: State, e: nat, src: nat, dst: nat)
    requires Inv(s) && Enabled(s, DupStart(e, src, dst)) && src != dst
    ensures Dupping(Next(s, DupStart(e, src, dst)), e, src, dst, At(s, e, src))
  {
    CellAt(s, e, dst);
  }

  lemma DupGoesOn(m: State, x: Step, e: nat, src: nat, dst: nat, was: Cell)
    requires Enabled(m, x) && Dupping(m, e, src, dst, was) && was.fd != Nothing && src != dst
    requires x.e == e ==> DupStep(x)
    ensures Dupping(Next(m, x), e, src, dst, was)
  {
    if x.e != e {
      OthersLeave(m, x, e, src);
      OthersLeave(m, x, e, dst);
    }
  }

  lemma {:induction false} DupCopies(m: State, xs: seq<Step>, e: nat, src: nat, dst: nat, was: Cell)
    requires Legal(m, xs) && Dupping(m, e, src, dst, was) && was.fd != Nothing && src != dst
    requires forall k :: 0 <= k < |xs| && xs[k].e == e ==> DupStep(xs[k])
    ensures
      var t := Run(m, xs);
      Dupping(t, e, src, dst, was) && (PcOf(t, e).Idle? ==> At(t, e, dst) == At(t, e, src) == was)
    decreases |xs|
  {
    if xs != [] {
      DupGoesOn(m, xs[0], e, src, dst, was);
      hide Next, Enabled, Dupping;
      DupCopies(Next(m, xs[0]), xs[1..], e, src, dst, was);
    }
  }

  /** dup works: in any interleaving with other envs, when its maps succeed it ends with the new
      descriptor equal to the old one, the fd page and the data page both, and the old one as it was. */
  lemma DupWorks(s: State, e: nat, src: nat, dst: nat, xs: seq<Step>)
    requires Inv(s) && Enabled(s, DupStart(e, src, dst)) && src != dst && Legal(Next(s, DupStart(e, src, dst)), xs)
    requires forall k :: 0 <= k < |xs| && xs[k].e == e ==> DupStep(xs[k])
    ensures
      var t := Run(Next(s, DupStart(e, src, dst)), xs);
      && At(t, e, src) == At(s, e, src) && Dupping(t, e, src, dst, At(s, e, src))
      && (PcOf(t, e).Idle? ==> At(t, e, dst) == At(s, e, src))
  {
    DupBegins(s, e, src, dst);
    DupCopies(Next(s, DupStart(e, src, dst)), xs, e, src, dst, At(s, e, src));
  }

  /** And it can always end so. */
  lemma DupFinishes(m: State, e: nat, src: nat, dst: nat, was: Cell) returns (xs: seq<Step>)
    requires Dupping(m, e, src, dst, was) && was.fd != Nothing && src != dst
    ensures Legal(m, xs) && PcOf(Run(m, xs), e).Idle? && forall k :: 0 <= k < |xs| ==> xs[k].e == e && DupStep(xs[k])
    decreases match PcOf(m, e) case DupClose(_, _) => 3 case DupData(_, _) => 2 case DupFd(_, _) => 1 case _ => 0
  {
    xs := [];
    if !PcOf(m, e).Idle? {
      var x := match PcOf(m, e)
        case DupClose(_, _) => DupCloseEnd(e)
        case DupData(_, _) => MapData(e, true)
        case _ => MapFd(e, true);
      DupGoesOn(m, x, e, src, dst, was);
      var ys := DupFinishes(Next(m, x), e, src, dst, was);
      xs := [x] + ys;
      assert xs[1..] == ys;
    }
  }

  /** The child has the parent's descriptors, and nobody else's change. */
  lemma ForkInherits(s: State, e: nat, c: nat, a: nat, n: nat)
    requires Enabled(s, Fork(e, c))
    ensures At(Next(s, Fork(e, c)), a, n) == At(s, if a == c then e else a, n)
    ensures c in Next(s, Fork(e, c)).pcs && PcOf(Next(s, Fork(e, c)), c) == Idle
  {
    var given := set b | b in s.cells && b.env == e :: Slot(c, b.num);
    if Slot(e, n) in s.cells { assert Slot(c, n) in given; }
  }
}
