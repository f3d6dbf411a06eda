/** Copy-on-write fork (user/lib/fork.c) against plain copying.

    The concrete half of a state is what the kernel keeps: page tables naming shared
    frames, and frame contents.  The reference half is the same system with a fork that
    copies: every private page has its own contents, every LIBRARY page a shared cell.
    All envs interleave between system calls, and a parent may fault or store in the
    middle of its own fork, as it does on its stack. */
module Cow {

  type Data = seq<nat>

  /** A virtual page of an env. */
  datatype Addr = Addr(env: nat, vpn: nat)

  datatype Pte = Pte(frame: nat, d: bool, cow: bool, lib: bool)

  /** UCOW and USTACKTOP as page numbers. */
  const UCOW: nat := 0x3ff
  const USTACK: nat := 0x7f3fe

  const ZERO: Data := []

  /** Where cow_entry is; v is the faulting page. */
  datatype Fault = NoFault | Entered(v: nat) | Alloced(v: nat) | Copied(v: nat) | Mapped(v: nat)

  /** Where fork is: the loop has reached page next; half says the child has that page but the
      parent has not been remapped yet. */
  datatype Fork = NoFork | Forking(child: nat, next: nat, half: bool)

  datatype Proc = Proc(live: bool, fork: Fork, fault: Fault)

  /** view, cellOf and cells are the reference: contents of private pages, the cell behind
      each LIBRARY page, and the contents of cells. */
  datatype State = State(pt: map<Addr, Pte>, mem: map<nat, Data>, procs: map<nat, Proc>,
                         view: map<Addr, Data>, cellOf: map<Addr, nat>, cells: map<nat, Data>)

  // ---------------------------------------------------------------------------
  // The reference operations

  function RefWrite(s: State, a: Addr, data: Data): (r: State)
    ensures r.pt == s.pt && r.mem == s.mem && r.procs == s.procs
  {
    if a in s.cellOf then s.(cells := s.cells[s.cellOf[a] := data]) else s.(view := s.view[a := data])
  }

  /** Fork copies one page. */
  function RefCopy(s: State, a: Addr, b: Addr): (r: State)
    ensures r.pt == s.pt && r.mem == s.mem && r.procs == s.procs
  {
    if a in s.cellOf then s.(cellOf := s.cellOf[b := s.cellOf[a]])
    else if a in s.view then s.(view := s.view[b := s.view[a]])
    else s
  }

  ghost predicate RefReads(s: State, a: Addr, data: Data) {
    if a in s.cellOf then s.cellOf[a] in s.cells && s.cells[s.cellOf[a]] == data
    else a in s.view && s.view[a] == data
  }

  /** What the hardware returns for a mapped page. */
  ghost predicate Reads(s: State, a: Addr, data: Data) {
    a in s.pt && s.pt[a].frame in s.mem && s.mem[s.pt[a].frame] == data
  }

  // ---------------------------------------------------------------------------
  // Steps

  datatype Step =
    | Store(e: nat, v: nat, data: Data)
    | Alloc(e: nat, v: nat, f: nat, lib: bool)
    | Unmap(e: nat, v: nat)
    | FaultEnter(e: nat, v: nat)
    | FaultAlloc(e: nat, f: nat)
    | FaultCopy(e: nat)
    | FaultMap(e: nat)
    | FaultDone(e: nat)
    | ForkStart(e: nat, child: nat)
    | ForkSkip(e: nat)
    | DupFirst(e: nat)
    | DupSecond(e: nat)
    | ForkEnd(e: nat)

  predicate Alive(s: State, e: nat) { e in s.procs && s.procs[e].live }

  /** A frame page_alloc may return: nothing maps it. */
  ghost predicate FreshFrame(s: State, f: nat) {
    forall a :: a in s.pt ==> s.pt[a].frame != f
  }

  /** The page the parent is between its two remaps of. */
  predicate InHalf(s: State, e: nat, v: nat) {
    e in s.procs && s.procs[e].fork.Forking? && s.procs[e].fork.half && s.procs[e].fork.next == v
  }

  ghost predicate Enabled(s: State, x: Step) {
    && Alive(s, x.e)
    && var p := s.procs[x.e];
       match x
       case Store(e, v, _) => p.fault == NoFault && v != UCOW && Addr(e, v) in s.pt && s.pt[Addr(e, v)].d
       case Alloc(e, v, f, _) => p.fault == NoFault && v != UCOW && Addr(e, v) !in s.pt && FreshFrame(s, f)
       case Unmap(e, v) => p.fault == NoFault && v != UCOW && Addr(e, v) in s.pt && !InHalf(s, e, v)
       case FaultEnter(e, v) =>
         p.fault == NoFault && v != UCOW && Addr(e, v) in s.pt && !s.pt[Addr(e, v)].d && s.pt[Addr(e, v)].cow
       case FaultAlloc(e, f) => p.fault.Entered? && FreshFrame(s, f)
       case FaultCopy(e) => p.fault.Alloced?
       case FaultMap(e) => p.fault.Copied?
       case FaultDone(e) => p.fault.Mapped?
       case ForkStart(e, c) =>
         p.fault == NoFault && p.fork == NoFork && c !in s.procs && (forall a :: a in s.pt ==> a.env != c)
       case ForkSkip(e) =>
         p.fault == NoFault && p.fork.Forking? && !p.fork.half && p.fork.next < USTACK && Addr(e, p.fork.next) !in s.pt
       case DupFirst(e) =>
         p.fault == NoFault && p.fork.Forking? && !p.fork.half && p.fork.next < USTACK && Addr(e, p.fork.next) in s.pt
       case DupSecond(e) => p.fault == NoFault && p.fork.Forking? && p.fork.half
       case ForkEnd(e) => p.fault == NoFault && p.fork.Forking? && !p.fork.half && p.fork.next == USTACK
  }

  function SetFault(s: State, e: nat, k: Fault): (r: State)
    requires e in s.procs
  {
    s.(procs := s.procs[e := s.procs[e].(fault := k)])
  }

  function SetFork(s: State, e: nat, k: Fork): (r: State)
    requires e in s.procs
  {
    s.(procs := s.procs[e := s.procs[e].(fork := k)])
  }

  /** duppage's test: not writable, shared, or copy-on-write already. */
  predicate MapAsIs(q: Pte) { !q.d || q.lib || q.cow }

  /** cow_entry keeps the permissions but for COW, which becomes D. */
  function Writable(q: Pte, f: nat): (r: Pte) { q.(frame := f, d := true, cow := false) }

  /** duppage's `(perm & ~PTE_D) | PTE_COW`. */
  function Shared(q: Pte): (r: Pte) { q.(d := false, cow := true) }

  function Next(s: State, x: Step): (r: State)
    requires Enabled(s, x)
  {
    var p := s.procs[x.e];
    match x
    case Store(e, v, data) =>
      RefWrite(s.(mem := s.mem[s.pt[Addr(e, v)].frame := data]), Addr(e, v), data)
    case Alloc(e, v, f, lib) =>
      var a := Addr(e, v);
      var t := s.(pt := s.pt[a := Pte(f, true, false, lib)], mem := s.mem[f := ZERO]);
      if lib then t.(cellOf := s.cellOf[a := f], cells := s.cells[f := ZERO], view := s.view - {a})
      else t.(view := s.view[a := ZERO], cellOf := s.cellOf - {a})
    case Unmap(e, v) =>
      s.(pt := s.pt - {Addr(e, v)}, view := s.view - {Addr(e, v)}, cellOf := s.cellOf - {Addr(e, v)})
    case FaultEnter(e, v) => SetFault(s, e, Entered(v))
    case FaultAlloc(e, f) =>
      var v := p.fault.v;
      if Addr(e, v) in s.pt then
        SetFault(s.(pt := s.pt[Addr(e, UCOW) := Writable(s.pt[Addr(e, v)], f)], mem := s.mem[f := ZERO]), e, Alloced(v))
      else s
    case FaultCopy(e) =>
      var v := p.fault.v;
      if Addr(e, v) in s.pt && s.pt[Addr(e, v)].frame in s.mem && Addr(e, UCOW) in s.pt then
        SetFault(s.(mem := s.mem[s.pt[Addr(e, UCOW)].frame := s.mem[s.pt[Addr(e, v)].frame]]), e, Copied(v))
      else s
    case FaultMap(e) =>
      var v := p.fault.v;
      if Addr(e, UCOW) in s.pt then
        SetFault(s.(pt := s.pt[Addr(e, v) := s.pt[Addr(e, UCOW)]]), e, Mapped(v))
      else s
    case FaultDone(e) => SetFault(s.(pt := s.pt - {Addr(e, UCOW)}), e, NoFault)
    case ForkStart(e, c) =>
      var t := SetFork(s, e, Forking(c, 0, false));
      t.(procs := t.procs[c := Proc(false, NoFork, NoFault)])
    case ForkSkip(e) => SetFork(s, e, p.fork.(next := p.fork.next + 1))
    case DupFirst(e) =>
      var a, b := Addr(e, p.fork.next), Addr(p.fork.child, p.fork.next);
      if MapAsIs(s.pt[a]) then
        SetFork(RefCopy(s.(pt := s.pt[b := s.pt[a]]), a, b), e, p.fork.(next := p.fork.next + 1))
      else
        SetFork(s.(pt := s.pt[b := Shared(s.pt[a])]), e, p.fork.(half := true))
    case DupSecond(e) =>
      var a, b := Addr(e, p.fork.next), Addr(p.fork.child, p.fork.next);
      if a in s.pt then
        SetFork(RefCopy(s.(pt := s.pt[a := Shared(s.pt[a])]), a, b), e, Forking(p.fork.child, p.fork.next + 1, false))
      else s
    case ForkEnd(e) =>
      var t := SetFork(s, e, NoFork);
      if p.fork.child in t.procs then t.(procs := t.procs[p.fork.child := t.procs[p.fork.child].(live := true)]) else t
  }

  // ---------------------------------------------------------------------------
  // The invariant

  /** b is a page a parent has already given its child without being remapped itself. */
  ghost predicate HalfChild(s: State, b: Addr, p: nat) {
    InHalf(s, p, b.vpn) && s.procs[p].fork.child == b.env
  }

  ghost predicate Ordinary(s: State, a: Addr) { forall p :: !HalfChild(s, a, p) }

  /** Two user pages on one frame: the frame is COW or read-only in both, a cell in both, or
      the two ends of a page half way through duppage. */
  ghost predicate PairOk(s: State, a: Addr, b: Addr)
    requires a in s.pt && b in s.pt
  {
    a != b && a.vpn != UCOW && b.vpn != UCOW && s.pt[a].frame == s.pt[b].frame ==>
      && s.pt[a].lib == s.pt[b].lib
      && (s.pt[a].d && !s.pt[a].lib ==> HalfChild(s, b, a.env) && a.vpn == b.vpn)
  }

  /** One page: its flags make sense and, unless it is half a child's, the reference agrees. */
  ghost predicate PageOk(s: State, a: Addr)
    requires a in s.pt
  {
    var q := s.pt[a];
    && q.frame in s.mem && a.env in s.procs
    && (q.cow ==> !q.d && !q.lib)
    && (a.vpn != UCOW && q.lib ==>
          && a in s.cellOf && s.cellOf[a] == q.frame && q.frame in s.cells
          && s.cells[q.frame] == s.mem[q.frame])
    && (a.vpn != UCOW && !q.lib ==> a !in s.cellOf)
    && (a.vpn != UCOW && !q.lib && Ordinary(s, a) ==> a in s.view && s.view[a] == s.mem[q.frame])
  }

  /** cow_entry's temporary mapping. */
  ghost predicate FaultOk(s: State, e: nat)
    requires e in s.procs
  {
    var u := Addr(e, UCOW);
    match s.procs[e].fault
    case NoFault => u !in s.pt
    case Entered(v) => u !in s.pt && Faulted(s, e, v)
    case Alloced(v) => Faulted(s, e, v) && Private(s, e)
    case Copied(v) =>
      Faulted(s, e, v) && Private(s, e) && s.pt[u].frame in s.mem && s.pt[Addr(e, v)].frame in s.mem
      && s.mem[s.pt[u].frame] == s.mem[s.pt[Addr(e, v)].frame]
    case Mapped(v) =>
      && v != UCOW && u in s.pt && Addr(e, v) in s.pt && s.pt[Addr(e, v)] == s.pt[u]
      && (forall b :: b in s.pt && s.pt[b].frame == s.pt[u].frame ==> b == u || b == Addr(e, v))
  }

  ghost predicate Faulted(s: State, e: nat, v: nat) {
    v != UCOW && Addr(e, v) in s.pt && s.pt[Addr(e, v)].cow && s.procs.Keys >= {e} && Alive(s, e)
  }

  /** UCOW maps a frame of its own, writable and not shared. */
  ghost predicate Private(s: State, e: nat) {
    var u := Addr(e, UCOW);
    u in s.pt && s.pt[u].d && !s.pt[u].cow && !s.pt[u].lib
    && forall b :: b in s.pt && s.pt[b].frame == s.pt[u].frame ==> b == u
  }

  ghost predicate ForkOk(s: State, e: nat)
    requires e in s.procs
  {
    s.procs[e].fork.Forking? ==>
      var k := s.procs[e].fork;
      && k.child in s.procs && k.child != e && !s.procs[k.child].live && s.procs[e].live
      && s.procs[k.child] == Proc(false, NoFork, NoFault)
      && (forall b :: b in s.pt && b.env == k.child ==> b.vpn < k.next || (k.half && b.vpn == k.next))
      && k.next <= USTACK
      && (forall q :: q in s.procs && q != e && s.procs[q].fork.Forking? ==> s.procs[q].fork.child != k.child)
      && (k.half ==>
            var a, b := Addr(e, k.next), Addr(k.child, k.next);
            && k.next < USTACK && k.next != UCOW
            && a in s.pt && b in s.pt && s.pt[a].frame == s.pt[b].frame
            && s.pt[a].d && !s.pt[a].lib && !s.pt[a].cow && s.pt[b].cow)
  }

  /** UCOW is mapped only inside cow_entry. */
  ghost predicate UcowOk(s: State, a: Addr)
    requires a in s.pt
  {
    a.vpn == UCOW ==> a.env in s.procs && !s.procs[a.env].fault.NoFault? && !s.procs[a.env].fault.Entered?
  }

  /** The reference has no page the env does not map. */
  ghost predicate CellOk(s: State, a: Addr) {
    && (a in s.cellOf ==> a in s.pt && a.vpn != UCOW && s.pt[a].lib)
    && (a in s.view ==> a in s.pt && a.vpn != UCOW)
  }

  ghost predicate Inv(s: State) {
    && (forall a :: a in s.pt ==> PageOk(s, a) && UcowOk(s, a))
    && (forall a, b :: a in s.pt && b in s.pt ==> PairOk(s, a, b))
    && (forall e :: e in s.procs ==> FaultOk(s, e) && ForkOk(s, e))
    && (forall a :: CellOk(s, a))
  }

  /** Start: every page is mapped, private writable frames once, and the reference agrees. */
  ghost predicate Init(s: State) {
    && (forall e :: e in s.procs ==> s.procs[e] == Proc(true, NoFork, NoFault))
    && (forall a :: a in s.pt ==> PageOk(s, a) && a.vpn != UCOW)
    && (forall a :: a in s.cellOf ==> a in s.pt && s.pt[a].lib)
    && (forall a :: a in s.view ==> a in s.pt)
    && (forall a, b :: a in s.pt && b in s.pt && a != b && s.pt[a].frame == s.pt[b].frame ==>
          s.pt[a].lib == s.pt[b].lib && (s.pt[a].lib || !s.pt[a].d))
  }

  lemma InitInv(s: State)
    requires Init(s)
    ensures Inv(s)
  {
  }

  /** The theorem in one state: a running env maps the pages it would have under plain copying,
      and reads in them what it would read. */
  lemma ReadsAgree(s: State, a: Addr, data: Data)
    requires Inv(s) && a.vpn != UCOW && Alive(s, a.env)
    ensures a in s.pt <==> a in s.view || a in s.cellOf
    ensures Reads(s, a, data) <==> RefReads(s, a, data)
  {
    assert a in s.pt ==> PageOk(s, a);
    assert CellOk(s, a);
    NotHalf(s, a);
  }

  /** A running env is nobody's unfinished child. */
  lemma NotHalf(s: State, a: Addr)
    requires Inv(s) && Alive(s, a.env)
    ensures Ordinary(s, a)
  {
    forall p ensures !HalfChild(s, a, p) {
      assert p in s.procs ==> ForkOk(s, p);
    }
  }

  // ---------------------------------------------------------------------------
  // Every step keeps the invariant

  lemma Pages(s: State, a: Addr)
    requires Inv(s)
    ensures a in s.pt ==> PageOk(s, a) && UcowOk(s, a)
    ensures CellOk(s, a)
  {
  }

  lemma Pairs(s: State, a: Addr, b: Addr)
    requires Inv(s)
    ensures a in s.pt && b in s.pt ==> PairOk(s, a, b) && PairOk(s, b, a)
  {
  }

  lemma Procs(s: State, e: nat)
    requires Inv(s)
    ensures e in s.procs ==> FaultOk(s, e) && ForkOk(s, e)
  {
  }

  /** The page a step is about. */
  function Target(s: State, x: Step): (a: Addr)
    requires Enabled(s, x)
  {
    match x
    case Store(e, v, _) => Addr(e, v)
    case Alloc(e, v, _, _) => Addr(e, v)
    case Unmap(e, v) => Addr(e, v)
    case FaultEnter(e, v) => Addr(e, v)
    case FaultAlloc(e, _) => Addr(e, s.procs[e].fault.v)
    case FaultCopy(e) => Addr(e, s.procs[e].fault.v)
    case FaultMap(e) => Addr(e, s.procs[e].fault.v)
    case FaultDone(e) => Addr(e, s.procs[e].fault.v)
    case ForkStart(e, _) => Addr(e, 0)
    case _ => Addr(x.e, s.procs[x.e].fork.next)
  }

  /** A page half way through duppage stays so until the parent's own remap. */
  lemma StillHalf(s: State, x: Step, a: Addr)
    requires Inv(s) && Enabled(s, x)
    requires x.DupSecond? ==> a != Addr(s.procs[x.e].fork.child, s.procs[x.e].fork.next)
    ensures Ordinary(Next(s, x), a) ==> Ordinary(s, a)
  {
    var t := Next(s, x);
    hide Inv, Next, Enabled;
    forall p | HalfChild(s, a, p) ensures HalfChild(t, a, p) {
      StillHalfOf(s, x, a, p);
    }
  }

  lemma StillHalfOf(s: State, x: Step, a: Addr, p: nat)
    requires Inv(s) && Enabled(s, x) && HalfChild(s, a, p)
    requires x.DupSecond? ==> a != Addr(s.procs[x.e].fork.child, s.procs[x.e].fork.next)
    ensures HalfChild(Next(s, x), a, p)
  {
    hide Inv, PageOk, FaultOk;
    Procs(s, x.e);
    Procs(s, p);
  }

  // The steps in four groups: memory use, cow_entry, the frame of fork, duppage.
  predicate OnMemory(x: Step) { x.Store? || x.Alloc? || x.Unmap? }
  predicate InFault(x: Step) { x.FaultEnter? || x.FaultAlloc? || x.FaultCopy? || x.FaultMap? || x.FaultDone? }
  predicate InFork(x: Step) { x.ForkStart? || x.ForkSkip? || x.ForkEnd? }
  predicate InDup(x: Step) { x.DupFirst? || x.DupSecond? }

  lemma StorePage(s: State, x: Step, a: Addr)
    requires Inv(s) && Enabled(s, x) && x.Store?
    ensures a in Next(s, x).pt ==> PageOk(Next(s, x), a) && UcowOk(Next(s, x), a)
    ensures CellOk(Next(s, x), a)
  {
    hide Inv;
    var g, t := Target(s, x), Next(s, x);
    Pages(s, a); Pages(s, g); Pairs(s, a, g); Procs(s, x.e); Procs(s, a.env); NotHalf(s, g);
    StillHalf(s, x, a);
  }

  lemma AllocPage(s: State, x: Step, a: Addr)
    requires Inv(s) && Enabled(s, x) && x.Alloc?
    ensures a in Next(s, x).pt ==> PageOk(Next(s, x), a) && UcowOk(Next(s, x), a)
    ensures CellOk(Next(s, x), a)
  {
    hide Inv;
    var g, t := Target(s, x), Next(s, x);
    Pages(s, a); Pages(s, g); Pairs(s, a, g); Procs(s, x.e); Procs(s, a.env); NotHalf(s, g);
    StillHalf(s, x, a);
  }

  lemma UnmapPage(s: State, x: Step, a: Addr)
    requires Inv(s) && Enabled(s, x) && x.Unmap?
    ensures a in Next(s, x).pt ==> PageOk(Next(s, x), a) && UcowOk(Next(s, x), a)
    ensures CellOk(Next(s, x), a)
  {
    hide Inv;
    var g, t := Target(s, x), Next(s, x);
    Pages(s, a); Pages(s, g); Pairs(s, a, g); Procs(s, x.e); Procs(s, a.env); NotHalf(s, g);
    StillHalf(s, x, a);
  }

  lemma MemPair(s: State, x: Step, a: Addr, b: Addr)
    requires Inv(s) && Enabled(s, x) && OnMemory(x)
    ensures a in Next(s, x).pt && b in Next(s, x).pt ==> PairOk(Next(s, x), a, b)
  {
    hide Inv;
    var g := Target(s, x);
    Pages(s, a); Pages(s, b); Pages(s, g); Pairs(s, a, b); Pairs(s, a, g); Pairs(s, b, g); Procs(s, x.e);
    Procs(s, a.env);
  }

  lemma StoreHandler(s: State, x: Step, e: nat)
    requires Inv(s) && Enabled(s, x) && x.Store?
    ensures e in Next(s, x).procs ==> FaultOk(Next(s, x), e)
  {
    hide Inv;
    var g := Target(s, x);
    Procs(s, x.e); Procs(s, e); Pages(s, g);
    var p := if e in s.procs then s.procs[e].fault else NoFault;
    if p.Copied? {
      var o := Addr(e, p.v);
      Pages(s, o); Pairs(s, g, o); NotHalf(s, o);
    }
  }

  lemma AllocHandler(s: State, x: Step, e: nat)
    requires Inv(s) && Enabled(s, x) && x.Alloc?
    ensures e in Next(s, x).procs ==> FaultOk(Next(s, x), e)
  {
    hide Inv, PairOk, CellOk, Ordinary;
    var g := Target(s, x);
    Procs(s, x.e); Procs(s, e); Pages(s, g);
  }

  lemma UnmapHandler(s: State, x: Step, e: nat)
    requires Inv(s) && Enabled(s, x) && x.Unmap?
    ensures e in Next(s, x).procs ==> FaultOk(Next(s, x), e)
  {
    hide Inv, PairOk, CellOk, Ordinary;
    var g := Target(s, x);
    Procs(s, x.e); Procs(s, e); Pages(s, g);
  }

  lemma MemParent(s: State, x: Step, e: nat)
    requires Inv(s) && Enabled(s, x) && OnMemory(x)
    ensures e in Next(s, x).procs ==> ForkOk(Next(s, x), e)
  {
    hide Inv, PageOk, PairOk, UcowOk, CellOk, Ordinary;
    var g := Target(s, x);
    Procs(s, x.e); Procs(s, e); Pages(s, g);
  }

  lemma FaultPage(s: State, x: Step, a: Addr)
    requires Inv(s) && Enabled(s, x) && InFault(x)
    ensures a in Next(s, x).pt ==> PageOk(Next(s, x), a) && UcowOk(Next(s, x), a)
    ensures CellOk(Next(s, x), a)
  {
    hide Inv;
    var g, t := Target(s, x), Next(s, x);
    Pages(s, a); Pages(s, g); Pairs(s, a, g); Procs(s, x.e); Procs(s, a.env); NotHalf(s, g);
    StillHalf(s, x, a);
  }

  lemma FaultPair(s: State, x: Step, a: Addr, b: Addr)
    requires Inv(s) && Enabled(s, x) && InFault(x)
    ensures a in Next(s, x).pt && b in Next(s, x).pt ==> PairOk(Next(s, x), a, b)
  {
    hide Inv, CellOk, Ordinary, ForkOk;
    var g := Target(s, x);
    Pages(s, a); Pages(s, b); Pages(s, g); Pairs(s, a, b); Pairs(s, a, g); Pairs(s, b, g); Procs(s, x.e);
    Procs(s, a.env);
  }

  lemma FaultHandler(s: State, x: Step, e: nat)
    requires Inv(s) && Enabled(s, x) && InFault(x)
    ensures e in Next(s, x).procs ==> FaultOk(Next(s, x), e)
  {
    assert Next(s, x).procs.Keys == s.procs.Keys;
    hide Inv, FaultOk, Next;
    if e == x.e {
      OwnFault(s, x);
    } else if e in s.procs {
      OtherFault(s, x, e);
    }
  }

  lemma OtherFault(s: State, x: Step, e: nat)
    requires Inv(s) && Enabled(s, x) && InFault(x) && e in s.procs && e != x.e
    ensures e in Next(s, x).procs ==> FaultOk(Next(s, x), e)
  {
    hide Inv, PairOk, CellOk, Ordinary, ForkOk;
    var g := Target(s, x);
    Procs(s, x.e); Procs(s, e); Pages(s, g);
  }

  lemma OwnFault(s: State, x: Step)
    requires Inv(s) && Enabled(s, x) && InFault(x)
    ensures x.e in Next(s, x).procs ==> FaultOk(Next(s, x), x.e)
  {
    hide Inv, PairOk, CellOk, Ordinary, ForkOk;
    var g := Target(s, x);
    Procs(s, x.e); Pages(s, g);
  }

  lemma FaultPageParent(s: State, x: Step, e: nat)
    requires Inv(s) && Enabled(s, x) && InFault(x) && !x.FaultMap? && !x.FaultDone?
    ensures e in Next(s, x).procs ==> ForkOk(Next(s, x), e)
  {
    hide Inv, PageOk, PairOk, UcowOk, CellOk, Ordinary;
    var g := Target(s, x);
    Procs(s, x.e); Procs(s, e); Pages(s, g);
  }

  lemma FaultMapParent(s: State, x: Step, e: nat)
    requires Inv(s) && Enabled(s, x) && (x.FaultMap? || x.FaultDone?)
    ensures e in Next(s, x).procs ==> ForkOk(Next(s, x), e)
  {
    hide Inv, PageOk, PairOk, UcowOk, CellOk, Ordinary;
    var g := Target(s, x);
    Procs(s, x.e); Procs(s, e); Pages(s, g);
  }

  lemma ForkPage(s: State, x: Step, a: Addr)
    requires Inv(s) && Enabled(s, x) && InFork(x)
    ensures a in Next(s, x).pt ==> PageOk(Next(s, x), a) && UcowOk(Next(s, x), a)
    ensures CellOk(Next(s, x), a)
  {
    hide Inv, PairOk, FaultOk, RefCopy, RefWrite;
    Pages(s, a); Procs(s, x.e);
    StillHalf(s, x, a);
  }

  lemma ForkPair(s: State, x: Step, a: Addr, b: Addr)
    requires Inv(s) && Enabled(s, x) && InFork(x)
    ensures a in Next(s, x).pt && b in Next(s, x).pt ==> PairOk(Next(s, x), a, b)
  {
    hide Inv, CellOk, Ordinary;
    var g := Target(s, x);
    Pages(s, a); Pages(s, b); Pages(s, g); Pairs(s, a, b); Pairs(s, a, g); Pairs(s, b, g); Procs(s, x.e);
    Procs(s, a.env);
  }

  lemma ForkHandler(s: State, x: Step, e: nat)
    requires Inv(s) && Enabled(s, x) && InFork(x)
    ensures e in Next(s, x).procs ==> FaultOk(Next(s, x), e)
  {
    hide Inv, ForkOk;
    Procs(s, x.e); Procs(s, e);
  }

  lemma ForkStartParent(s: State, x: Step, e: nat)
    requires Inv(s) && Enabled(s, x) && x.ForkStart?
    ensures e in Next(s, x).procs ==> ForkOk(Next(s, x), e)
  {
    hide Inv, PairOk, UcowOk, CellOk, Ordinary;
    var g := Target(s, x);
    Procs(s, x.e); Procs(s, e); Pages(s, g);
    forall q | q in s.procs ensures ForkOk(s, q) { Procs(s, q); }
    forall a | a in s.pt ensures a.env in s.procs { Pages(s, a); }
  }

  lemma ForkEndParent(s: State, x: Step, e: nat)
    requires Inv(s) && Enabled(s, x) && (x.ForkSkip? || x.ForkEnd?)
    ensures e in Next(s, x).procs ==> ForkOk(Next(s, x), e)
  {
    hide Inv, PageOk, PairOk, UcowOk, CellOk, Ordinary;
    var g := Target(s, x);
    Procs(s, x.e); Procs(s, e); Pages(s, g);
  }

  lemma DupPage(s: State, x: Step, a: Addr)
    requires Inv(s) && Enabled(s, x) && InDup(x)
    ensures a in Next(s, x).pt ==> PageOk(Next(s, x), a) && UcowOk(Next(s, x), a)
    ensures CellOk(Next(s, x), a)
  {
    hide Inv;
    var g, t := Target(s, x), Next(s, x);
    Pages(s, a); Pages(s, g); Pairs(s, a, g); Procs(s, x.e); Procs(s, a.env); NotHalf(s, g);
    if x.DupSecond? {
      var b := Addr(s.procs[x.e].fork.child, g.vpn);
      Pages(s, b);
      if a != b { StillHalf(s, x, a); }
    } else {
      StillHalf(s, x, a);
      if a == Addr(s.procs[x.e].fork.child, g.vpn) && !MapAsIs(s.pt[g]) {
        assert HalfChild(t, a, x.e);
      }
    }
  }

  lemma DupFirstPair(s: State, x: Step, a: Addr, b: Addr)
    requires Inv(s) && Enabled(s, x) && x.DupFirst?
    ensures a in Next(s, x).pt && b in Next(s, x).pt ==> PairOk(Next(s, x), a, b)
  {
    hide Inv, CellOk, Ordinary;
    var g := Target(s, x);
    Pages(s, a); Pages(s, b); Pages(s, g); Pairs(s, a, b); Pairs(s, a, g); Pairs(s, b, g); Procs(s, x.e);
    Procs(s, a.env);
  }

  lemma DupSecondPair(s: State, x: Step, a: Addr, b: Addr)
    requires Inv(s) && Enabled(s, x) && x.DupSecond?
    ensures a in Next(s, x).pt && b in Next(s, x).pt ==> PairOk(Next(s, x), a, b)
  {
    hide Inv, CellOk, Ordinary;
    var g := Target(s, x);
    Pages(s, a); Pages(s, b); Pages(s, g); Pairs(s, a, b); Pairs(s, a, g); Pairs(s, b, g); Procs(s, x.e);
    Procs(s, a.env);
  }

  lemma DupFirstHandler(s: State, x: Step, e: nat)
    requires Inv(s) && Enabled(s, x) && x.DupFirst?
    ensures e in Next(s, x).procs ==> FaultOk(Next(s, x), e)
  {
    hide Inv, PairOk, CellOk, Ordinary;
    var g := Target(s, x);
    Procs(s, x.e); Procs(s, e); Pages(s, g);
  }

  lemma DupSecondHandler(s: State, x: Step, e: nat)
    requires Inv(s) && Enabled(s, x) && x.DupSecond?
    ensures e in Next(s, x).procs ==> FaultOk(Next(s, x), e)
  {
    hide Inv, PairOk, CellOk, Ordinary;
    var g := Target(s, x);
    Procs(s, x.e); Procs(s, e); Pages(s, g);
  }

  lemma DupFirstParent(s: State, x: Step, e: nat)
    requires Inv(s) && Enabled(s, x) && x.DupFirst?
    ensures e in Next(s, x).procs ==> ForkOk(Next(s, x), e)
  {
    hide Inv, PageOk, PairOk, UcowOk, CellOk, Ordinary;
    var g := Target(s, x);
    Procs(s, x.e); Procs(s, e); Pages(s, g);
  }

  lemma DupSecondParent(s: State, x: Step, e: nat)
    requires Inv(s) && Enabled(s, x) && x.DupSecond?
    ensures e in Next(s, x).procs ==> ForkOk(Next(s, x), e)
  {
    hide Inv, PageOk, PairOk, UcowOk, CellOk, Ordinary;
    var g := Target(s, x);
    Procs(s, x.e); Procs(s, e); Pages(s, g);
  }

  lemma StepPage(s: State, x: Step, a: Addr)
    requires Inv(s) && Enabled(s, x)
    ensures a in Next(s, x).pt ==> PageOk(Next(s, x), a) && UcowOk(Next(s, x), a)
    ensures CellOk(Next(s, x), a)
  {
    hide Inv, Enabled, Next, PageOk, UcowOk, CellOk, PairOk, FaultOk, ForkOk;
    if x.Store? { StorePage(s, x, a); }
    else if x.Alloc? { AllocPage(s, x, a); }
    else if x.Unmap? { UnmapPage(s, x, a); }
    else if InFault(x) { FaultPage(s, x, a); }
    else if InFork(x) { ForkPage(s, x, a); }
    else { DupPage(s, x, a); }
  }

  lemma StepPair(s: State, x: Step, a: Addr, b: Addr)
    requires Inv(s) && Enabled(s, x)
    ensures a in Next(s, x).pt && b in Next(s, x).pt ==> PairOk(Next(s, x), a, b)
  {
    hide Inv, Enabled, Next, PageOk, UcowOk, CellOk, PairOk, FaultOk, ForkOk;
    if OnMemory(x) { MemPair(s, x, a, b); }
    else if InFault(x) { FaultPair(s, x, a, b); }
    else if InFork(x) { ForkPair(s, x, a, b); }
    else if x.DupFirst? { DupFirstPair(s, x, a, b); }
    else { DupSecondPair(s, x, a, b); }
  }

  lemma StepHandler(s: State, x: Step, e: nat)
    requires Inv(s) && Enabled(s, x)
    ensures e in Next(s, x).procs ==> FaultOk(Next(s, x), e)
  {
    hide Inv, Enabled, Next, PageOk, UcowOk, CellOk, PairOk, FaultOk, ForkOk;
    if x.Store? { StoreHandler(s, x, e); }
    else if x.Alloc? { AllocHandler(s, x, e); }
    else if x.Unmap? { UnmapHandler(s, x, e); }
    else if InFault(x) { FaultHandler(s, x, e); }
    else if InFork(x) { ForkHandler(s, x, e); }
    else if x.DupFirst? { DupFirstHandler(s, x, e); }
    else { DupSecondHandler(s, x, e); }
  }

  lemma StepParent(s: State, x: Step, e: nat)
    requires Inv(s) && Enabled(s, x)
    ensures e in Next(s, x).procs ==> ForkOk(Next(s, x), e)
  {
    hide Inv, Enabled, Next, PageOk, UcowOk, CellOk, PairOk, FaultOk, ForkOk;
    if OnMemory(x) { MemParent(s, x, e); }
    else if x.FaultMap? || x.FaultDone? { FaultMapParent(s, x, e); }
    else if InFault(x) { FaultPageParent(s, x, e); }
    else if x.ForkStart? { ForkStartParent(s, x, e); }
    else if InFork(x) { ForkEndParent(s, x, e); }
    else if x.DupFirst? { DupFirstParent(s, x, e); }
    else { DupSecondParent(s, x, e); }
  }

  lemma Together(t: State)
    requires forall a :: (a in t.pt ==> PageOk(t, a) && UcowOk(t, a)) && CellOk(t, a)
    requires forall a, b :: a in t.pt && b in t.pt ==> PairOk(t, a, b)
    requires forall e :: e in t.procs ==> FaultOk(t, e) && ForkOk(t, e)
    ensures Inv(t)
  {
    hide PageOk, UcowOk, CellOk, PairOk, FaultOk, ForkOk;
  }

  lemma StepInv(s: State, x: Step)
    requires Inv(s) && Enabled(s, x)
    ensures Inv(Next(s, x))
  {
    var t := Next(s, x);
    hide Inv, Next, Enabled, PageOk, UcowOk, CellOk, PairOk, FaultOk, ForkOk;
    forall a ensures (a in t.pt ==> PageOk(t, a) && UcowOk(t, a)) && CellOk(t, a) { StepPage(s, x, a); }
    forall a, b | a in t.pt && b in t.pt ensures PairOk(t, a, b) { StepPair(s, x, a, b); }
    forall e | e in t.procs ensures FaultOk(t, e) && ForkOk(t, e) { StepHandler(s, x, e); StepParent(s, x, e); }
    Together(t);
  }

  // ---------------------------------------------------------------------------
  // Whole runs

  ghost predicate Legal(s: State, xs: seq<Step>)
    decreases |xs|
  {
    xs == [] || (Enabled(s, xs[0]) && Legal(Next(s, xs[0]), xs[1..]))
  }

  ghost function Run(s: State, xs: seq<Step>): (r: State)
    requires Legal(s, xs)
    decreases |xs|
  {
    if xs == [] then s else Run(Next(s, xs[0]), xs[1..])
  }

  lemma {:induction false} RunInv(s: State, xs: seq<Step>)
    requires Inv(s) && Legal(s, xs)
    ensures Inv(Run(s, xs))
    decreases |xs|
  {
    hide Inv, Next, Enabled;
    if xs != [] {
      StepInv(s, xs[0]);
      RunInv(Next(s, xs[0]), xs[1..]);
    }
  }

  /** Copy-on-write is invisible: after any interleaving of stores, allocations, forks and
      faults, a running env maps exactly the pages it would have had every fork copied, and every
      one of them reads exactly what it would then read. */
  lemma ForkLooksLikeCopy(s: State, xs: seq<Step>, a: Addr, data: Data)
    requires Init(s) && Legal(s, xs) && a.vpn != UCOW && Alive(Run(s, xs), a.env)
    ensures a in Run(s, xs).pt <==> a in Run(s, xs).view || a in Run(s, xs).cellOf
    ensures Reads(Run(s, xs), a, data) <==> RefReads(Run(s, xs), a, data)
  {
    InitInv(s);
    RunInv(s, xs);
    hide Inv, Init;
    ReadsAgree(Run(s, xs), a, data);
  }

  /** The handler in five steps. */
  function Handler(e: nat, v: nat, f: nat): (xs: seq<Step>) {
    [FaultEnter(e, v), FaultAlloc(e, f), FaultCopy(e), FaultMap(e), FaultDone(e)]
  }

  lemma HandlerCopies(s: State, e: nat, v: nat, f: nat)
    requires Enabled(s, FaultEnter(e, v)) && FreshFrame(s, f)
    requires Addr(e, UCOW) !in s.pt && s.pt[Addr(e, v)].frame in s.mem
    ensures var s1 := Next(s, FaultEnter(e, v));
            Enabled(s1, FaultAlloc(e, f)) && var s2 := Next(s1, FaultAlloc(e, f));
            Enabled(s2, FaultCopy(e)) && var q := s.pt[Addr(e, v)];
            Next(s2, FaultCopy(e)) == SetFault(s.(pt := s.pt[Addr(e, UCOW) := Writable(q, f)],
                                                  mem := s.mem[f := s.mem[q.frame]]), e, Copied(v))
  {
    var q := s.pt[Addr(e, v)];
    var s1 := Next(s, FaultEnter(e, v));
    assert s1 == SetFault(s, e, Entered(v));
    var s2 := Next(s1, FaultAlloc(e, f));
    assert s2 == SetFault(s.(pt := s.pt[Addr(e, UCOW) := Writable(q, f)], mem := s.mem[f := ZERO]), e, Alloced(v)) by {
      assert s1.procs[e := s1.procs[e].(fault := Alloced(v))] == s.procs[e := s.procs[e].(fault := Alloced(v))];
    }
    assert q.frame != f;
    assert s.mem[f := ZERO][f := s.mem[q.frame]] == s.mem[f := s.mem[q.frame]];
    assert s2.procs[e := s2.procs[e].(fault := Copied(v))] == s.procs[e := s.procs[e].(fault := Copied(v))];
  }

  lemma HandlerMaps(s: State, e: nat, v: nat, q: Pte)
    requires e in s.procs && s.procs[e].live && s.procs[e].fault == NoFault && v != UCOW && Addr(e, UCOW) !in s.pt
    ensures var s3 := SetFault(s.(pt := s.pt[Addr(e, UCOW) := q]), e, Copied(v));
            Enabled(s3, FaultMap(e)) && Enabled(Next(s3, FaultMap(e)), FaultDone(e))
            && Next(Next(s3, FaultMap(e)), FaultDone(e)) == s.(pt := s.pt[Addr(e, v) := q])
  {
    var s3 := SetFault(s.(pt := s.pt[Addr(e, UCOW) := q]), e, Copied(v));
    var s5 := Next(Next(s3, FaultMap(e)), FaultDone(e));
    assert s5.pt == s.pt[Addr(e, v) := q];
    assert s5.procs == s.procs;
  }

  /** cow_entry from end to end: the page is writable on a frame of its own, with the contents
      it had, and UCOW is free again. */
  lemma HandlerRuns(s: State, e: nat, v: nat, f: nat)
    requires Enabled(s, FaultEnter(e, v)) && FreshFrame(s, f)
    requires Addr(e, UCOW) !in s.pt && s.pt[Addr(e, v)].frame in s.mem
    ensures Legal(s, Handler(e, v, f))
    ensures
      var q := s.pt[Addr(e, v)];
      Run(s, Handler(e, v, f)) == s.(pt := s.pt[Addr(e, v) := Pte(f, true, false, q.lib)],
                                     mem := s.mem[f := s.mem[q.frame]])
  {
    var q := s.pt[Addr(e, v)];
    HandlerCopies(s, e, v, f);
    HandlerMaps(s.(mem := s.mem[f := s.mem[q.frame]]), e, v, Writable(q, f));
    hide Next, Enabled;
    RunFive(s, Handler(e, v, f));
  }

  lemma RunFive(s: State, xs: seq<Step>)
    requires |xs| == 5
    requires Enabled(s, xs[0]) && Enabled(Next(s, xs[0]), xs[1]) && Enabled(Next(Next(s, xs[0]), xs[1]), xs[2])
    requires Enabled(Next(Next(Next(s, xs[0]), xs[1]), xs[2]), xs[3])
    requires Enabled(Next(Next(Next(Next(s, xs[0]), xs[1]), xs[2]), xs[3]), xs[4])
    ensures Legal(s, xs)
    ensures Run(s, xs) == Next(Next(Next(Next(Next(s, xs[0]), xs[1]), xs[2]), xs[3]), xs[4])
  {
    hide Next, Enabled;
    var s1 := Next(s, xs[0]);
    var s2 := Next(s1, xs[1]);
    var s3 := Next(s2, xs[2]);
    var s4 := Next(s3, xs[3]);
    var s5 := Next(s4, xs[4]);
    assert xs[1..][0] == xs[1] && xs[1..][1..] == xs[2..];
    assert xs[2..][0] == xs[2] && xs[2..][1..] == xs[3..];
    assert xs[3..][0] == xs[3] && xs[3..][1..] == xs[4..];
    assert xs[4..][0] == xs[4] && xs[4..][1..] == [];
    assert Legal(s5, []) && Run(s5, []) == s5;
    assert Legal(s4, xs[4..]) && Run(s4, xs[4..]) == s5;
    assert Legal(s3, xs[3..]) && Run(s3, xs[3..]) == s5;
    assert Legal(s2, xs[2..]) && Run(s2, xs[2..]) == s5;
    assert Legal(s1, xs[1..]) && Run(s1, xs[1..]) == s5;
  }

  /** duppage's two remaps in the other order: parent first, then the child's mapping of what
      the parent has at that moment. */
  function ParentFirst(s: State, e: nat, v: nat): (r: State)
    requires Addr(e, v) in s.pt
  {
    s.(pt := s.pt[Addr(e, v) := Shared(s.pt[Addr(e, v)])])
  }

  function ChildSecond(s: State, e: nat, v: nat, c: nat): (r: State)
    requires Addr(e, v) in s.pt
  {
    s.(pt := s.pt[Addr(c, v) := Shared(s.pt[Addr(e, v)])])
  }

  lemma StoreShows(t: State, e: nat, v: nat, c: nat, data: Data)
    requires Alive(t, e) && t.procs[e].fault == NoFault && v != UCOW && c != e
    requires Addr(e, v) in t.pt && t.pt[Addr(e, v)].d
    ensures Enabled(ChildSecond(t, e, v, c), Store(e, v, data))
    ensures Reads(Next(ChildSecond(t, e, v, c), Store(e, v, data)), Addr(c, v), data)
  {
  }

  /** Why the child comes first.  With the order swapped, a parent that faults between the two
      remaps (as it does when v is its stack) ends up writable on the very frame its child
      maps: from any state and for any data, its next store shows through in the child. */
  lemma SwappedOrderLeaks(s: State, e: nat, v: nat, c: nat, f: nat, data: Data)
    requires Inv(s) && Alive(s, e) && s.procs[e].fault == NoFault && v != UCOW && c != e
    requires Addr(e, v) in s.pt && !MapAsIs(s.pt[Addr(e, v)]) && FreshFrame(s, f)
    ensures Enabled(ParentFirst(s, e, v), FaultEnter(e, v)) && Legal(ParentFirst(s, e, v), Handler(e, v, f))
    ensures Addr(e, v) in Run(ParentFirst(s, e, v), Handler(e, v, f)).pt
    ensures var t := ChildSecond(Run(ParentFirst(s, e, v), Handler(e, v, f)), e, v, c);
            Enabled(t, Store(e, v, data)) && Reads(Next(t, Store(e, v, data)), Addr(c, v), data)
  {
    Pages(s, Addr(e, v)); Procs(s, e);
    hide Inv;
    var s1 := ParentFirst(s, e, v);
    assert Enabled(s1, FaultEnter(e, v)) && FreshFrame(s1, f);
    hide Next, Enabled;
    HandlerRuns(s1, e, v, f);
    StoreShows(Run(s1, Handler(e, v, f)), e, v, c, data);
  }

  // ---------------------------------------------------------------------------
  // Which pages fork visits

  const PDX_UXSTACKTOP: nat := 509
  const PTES: nat := 1024

  /** The loop of fork over the directory and the tables: it skips directory entries that are
      not valid, leaves a table at USTACKTOP, and hands duppage exactly the pages that are
      mapped below USTACKTOP, each once, in ascending order. */
  method ForkLoop(vpd: set<nat>, vpt: set<nat>) returns (dup: seq<nat>)
    ensures forall v :: v in dup <==> v < USTACK && v / PTES in vpd && v in vpt
    ensures forall k, m :: 0 <= k < m < |dup| ==> dup[k] < dup[m]
  {
    dup := [];
    for i := 0 to PDX_UXSTACKTOP
      invariant forall v :: v in dup <==> v < i * PTES && v < USTACK && v / PTES in vpd && v in vpt
      invariant forall k, m :: 0 <= k < m < |dup| ==> dup[k] < dup[m]
    {
      if i in vpd {
        var j := 0;
        while j < PTES
          invariant 0 <= j <= PTES
          invariant forall v :: v in dup <==> v < i * PTES + j && v < USTACK && v / PTES in vpd && v in vpt
          invariant forall k, m :: 0 <= k < m < |dup| ==> dup[k] < dup[m]
        {
          var vpn := i * PTES + j;
          if vpn >= USTACK {
            break;
          }
          if vpn in vpt {
            assert forall k :: 0 <= k < |dup| ==> dup[k] in dup;
            dup := dup + [vpn];
          }
          j := j + 1;
        }
      }
    }
  }
}
