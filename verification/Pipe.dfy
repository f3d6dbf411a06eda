/** The pipe of user/lib/pipe.c: one reader and one writer over a shared page, interleaved at
    single accesses to that page.  Positions are 32-bit counters that wrap; got and written
    are the histories of bytes taken out and put in. */
module Pipe {

  const PIPE_SIZE: nat := 32
  const WORD: nat := 0x1_0000_0000

  /** Where the reader is; a call in progress wants n bytes.  RIdle holds what the last call
      returned and how much had been written when it last saw the buffer empty. */
  datatype Reader =
    | RIdle(n: nat, ret: nat, seen: nat)
    | RTest(n: nat)
    | REmpty(n: nat, seen: nat)
    | RCopy(n: nat)
    | RBump(n: nat, reg: nat)
    | RGone

  datatype Writer =
    | WIdle(data: seq<nat>, ret: nat)
    | WTest(data: seq<nat>)
    | WFull(data: seq<nat>)
    | WStore(data: seq<nat>)
    | WBump(data: seq<nat>)
    | WGone

  /** rbase and wbase: how long the histories were when the call in progress began. */
  datatype State = State(rpos: nat, wpos: nat, buf: seq<nat>, reader: Reader, writer: Writer,
                         got: seq<nat>, written: seq<nat>, rbase: nat, wbase: nat)

  datatype Step = ReadCall(n: nat) | ReadStep | ReadClose | WriteCall(data: seq<nat>) | WriteStep | WriteClose

  predicate Shape(s: State) { |s.buf| == PIPE_SIZE && s.rbase <= |s.got| && s.wbase <= |s.written| }

  predicate Enabled(s: State, x: Step) {
    && Shape(s)
    && match x
       case ReadCall(_) => s.reader.RIdle?
       case ReadClose => s.reader.RIdle?
       case ReadStep => !s.reader.RIdle? && !s.reader.RGone?
       case WriteCall(_) => s.writer.WIdle?
       case WriteClose => s.writer.WIdle?
       case WriteStep =>
         !s.writer.WIdle? && !s.writer.WGone?
         && (s.writer.WStore? || s.writer.WBump? ==> |s.written| - s.wbase < |s.writer.data|)
  }

  /** Unsigned arithmetic: a count as a 32-bit counter, the difference of two counters, and
      the slot of a counter. */
  function Wrapped(k: nat): (r: nat) { k % WORD }

  function Minus(a: nat, b: nat): (r: nat) { (a - b) % WORD }

  function Slot(k: nat): (r: nat)
    ensures r < PIPE_SIZE
  {
    k % PIPE_SIZE
  }

  function ReaderStep(s: State): (r: State)
    requires Enabled(s, ReadStep)
  {
    var i := |s.got| - s.rbase;
    match s.reader
    case RTest(n) => s.(reader := if s.rpos == s.wpos then REmpty(n, |s.written|) else RCopy(n))
    case REmpty(n, seen) => s.(reader := if s.writer.WGone? || i > 0 then RIdle(n, i, seen) else RTest(n))
    case RCopy(n) => s.(reader := RBump(n, s.buf[Slot(s.rpos)]))
    case RBump(n, reg) =>
      s.(rpos := Wrapped(s.rpos + 1), got := s.got + [reg],
         reader := if i + 1 < n then RTest(n) else RIdle(n, i + 1, |s.written|))
    case _ => s
  }

  function WriterStep(s: State): (r: State)
    requires Enabled(s, WriteStep)
  {
    var i := |s.written| - s.wbase;
    match s.writer
    case WTest(data) => s.(writer := if Minus(s.wpos, s.rpos) == PIPE_SIZE then WFull(data) else WStore(data))
    case WFull(data) => s.(writer := if s.reader.RGone? then WIdle(data, i) else WTest(data))
    case WStore(data) => s.(buf := s.buf[Slot(s.wpos) := data[i]], writer := WBump(data))
    case WBump(data) =>
      s.(wpos := Wrapped(s.wpos + 1), written := s.written + [data[i]],
         writer := if i + 1 < |data| then WTest(data) else WIdle(data, i + 1))
    case _ => s
  }

  function Next(s: State, x: Step): (r: State)
    requires Enabled(s, x)
  {
    match x
    case ReadCall(n) =>
      s.(rbase := |s.got|, reader := if n == 0 then RIdle(0, 0, |s.written|) else RTest(n))
    case ReadStep => ReaderStep(s)
    case ReadClose => s.(reader := RGone)
    case WriteCall(data) =>
      s.(wbase := |s.written|, writer := if data == [] then WIdle([], 0) else WTest(data))
    case WriteStep => WriterStep(s)
    case WriteClose => s.(writer := WGone)
  }

  // ---------------------------------------------------------------------------
  // The invariant

  /** The counters are the history lengths modulo 2^32, and the ring holds what is in flight. */
  ghost predicate RingOk(s: State) {
    && Shape(s)
    && |s.got| <= |s.written| <= |s.got| + PIPE_SIZE
    && s.rpos == Wrapped(|s.got|) && s.wpos == Wrapped(|s.written|)
    && s.got == s.written[..|s.got|]
    && forall k :: |s.got| <= k < |s.written| ==> s.buf[Slot(k)] == s.written[k]
  }

  ghost predicate ReaderOk(s: State)
    requires Shape(s)
  {
    var i := |s.got| - s.rbase;
    match s.reader
    case RIdle(n, ret, seen) =>
      && ret <= n && ret == i && seen <= |s.written|
      && (ret < n ==> |s.got| == seen && (ret > 0 || s.writer.WGone?))
    case RTest(n) => i < n
    case REmpty(n, seen) => i < n && |s.got| == seen <= |s.written|
    case RCopy(n) => i < n && |s.got| < |s.written|
    case RBump(n, reg) => i < n && |s.got| < |s.written| && reg == s.written[|s.got|]
    case RGone => true
  }

  ghost predicate WriterOk(s: State)
    requires Shape(s)
  {
    var i := |s.written| - s.wbase;
    match s.writer
    case WIdle(data, ret) =>
      && ret == i <= |data| && s.written[s.wbase..] == data[..ret]
      && (ret < |data| ==> s.reader.RGone?)
    case WTest(data) => i < |data| && s.written[s.wbase..] == data[..i]
    case WFull(data) => i < |data| && s.written[s.wbase..] == data[..i]
    case WStore(data) => i < |data| && s.written[s.wbase..] == data[..i] && |s.written| < |s.got| + PIPE_SIZE
    case WBump(data) =>
      && i < |data| && s.written[s.wbase..] == data[..i] && |s.written| < |s.got| + PIPE_SIZE
      && s.buf[Slot(|s.written|)] == data[i]
    case WGone => true
  }

  ghost predicate Inv(s: State) { RingOk(s) && ReaderOk(s) && WriterOk(s) }

  function Init(): (s: State)
    ensures Inv(s)
  {
    State(0, 0, seq(PIPE_SIZE, _ => 0), RIdle(0, 0, 0), WIdle([], 0), [], [], 0, 0)
  }

  /** Thirty-two divides 2^32, so the slot of a wrapped counter is the slot of the count, and
      counters at most thirty-two apart differ by exactly the counts' difference. */
  lemma Wrap(r: nat, w: nat)
    requires r <= w <= r + PIPE_SIZE
    ensures Slot(Wrapped(r)) == Slot(r) && Slot(Wrapped(w)) == Slot(w)
    ensures Minus(Wrapped(w), Wrapped(r)) == w - r
    ensures Wrapped(r) == Wrapped(w) <==> r == w
    ensures Wrapped(Wrapped(r) + 1) == Wrapped(r + 1) && Wrapped(Wrapped(w) + 1) == Wrapped(w + 1)
  {
    SlotOfWrapped(r);
    SlotOfWrapped(w);
    hide Slot;
    WrapDifference(r, w);
    WrapNext(r);
    WrapNext(w);
  }

  lemma WrapDifference(r: nat, w: nat)
    requires r <= w <= r + PIPE_SIZE
    ensures Minus(Wrapped(w), Wrapped(r)) == w - r && (Wrapped(r) == Wrapped(w) <==> r == w)
  {
    var q, p := r / WORD, w / WORD;
    assert r == q * WORD + r % WORD && w == p * WORD + w % WORD;
    assert p == q || p == q + 1;
  }

  lemma WrapNext(k: nat)
    ensures Wrapped(Wrapped(k) + 1) == Wrapped(k + 1)
  {
  }

  lemma SlotOfWrapped(k: nat)
    ensures Slot(Wrapped(k)) == Slot(k)
  {
    var q, m := k / WORD, k % WORD;
    assert k == m + (q * 0x800_0000) * PIPE_SIZE;
    SameSlot(m, q * 0x800_0000);
  }

  lemma {:induction false} SameSlot(m: nat, n: nat)
    ensures Slot(m + n * PIPE_SIZE) == Slot(m)
  {
    if n > 0 {
      SameSlot(m, n - 1);
      var x := m + (n - 1) * PIPE_SIZE;
      assert m + n * PIPE_SIZE == x + PIPE_SIZE;
      assert (x + PIPE_SIZE) % PIPE_SIZE == x % PIPE_SIZE;
    }
  }

  /** Different counts in one window of thirty-two use different slots. */
  lemma Slots(r: nat, k: nat, w: nat)
    requires r <= k < w < r + PIPE_SIZE
    ensures Slot(k) != Slot(w)
  {
  }

  // ---------------------------------------------------------------------------
  // Every access keeps it

  lemma ReadInv(s: State)
    requires Inv(s) && Enabled(s, ReadStep)
    ensures Inv(ReaderStep(s))
  {
    Wrap(|s.got|, |s.written|);
    hide Slot, Wrapped, Minus;
    var t := ReaderStep(s);
    if s.reader.RBump? {
      assert t.got == s.written[..|t.got|];
    }
  }

  lemma StoreInv(s: State)
    requires Inv(s) && Enabled(s, WriteStep) && s.writer.WStore?
    ensures Inv(WriterStep(s))
  {
    Wrap(|s.got|, |s.written|);
    var t := WriterStep(s);
    forall k | |s.got| <= k < |s.written| ensures t.buf[Slot(k)] == t.written[k] {
      Slots(|s.got|, k, |s.written|);
    }
    hide Slot, Wrapped, Minus;
  }

  lemma PublishInv(s: State)
    requires Inv(s) && Enabled(s, WriteStep) && s.writer.WBump?
    ensures Inv(WriterStep(s))
  {
    Wrap(|s.got|, |s.written|);
    hide Slot, Wrapped, Minus;
    var t := WriterStep(s);
    var data, i := s.writer.data, |s.written| - s.wbase;
    assert t.written[s.wbase..] == s.written[s.wbase..] + [data[i]] == data[..i + 1];
    assert t.got == t.written[..|t.got|];
  }

  lemma WriteTestInv(s: State)
    requires Inv(s) && Enabled(s, WriteStep) && (s.writer.WTest? || s.writer.WFull?)
    ensures Inv(WriterStep(s))
  {
    Wrap(|s.got|, |s.written|);
    hide Slot, Wrapped, Minus;
  }

  lemma StepInv(s: State, x: Step)
    requires Inv(s) && Enabled(s, x)
    ensures Inv(Next(s, x))
  {
    match x
    case ReadStep => ReadInv(s);
    case WriteStep =>
      if s.writer.WStore? { StoreInv(s); } else if s.writer.WBump? { PublishInv(s); } else { WriteTestInv(s); }
    case _ =>
  }

  // ---------------------------------------------------------------------------
  // Whole runs

  predicate Legal(s: State, xs: seq<Step>)
    decreases |xs|
  {
    xs == [] || (Enabled(s, xs[0]) && Legal(Next(s, xs[0]), xs[1..]))
  }

  function Run(s: State, xs: seq<Step>): (r: State)
    requires Legal(s, xs)
    decreases |xs|
  {
    if xs == [] then s else Run(Next(s, xs[0]), xs[1..])
  }

  lemma {:induction false} RunInv(s: State, xs: seq<Step>)
    requires Inv(s) && Legal(s, xs)
    ensures Inv(Run(s, xs))
    decreases |xs|
  {
    hide Inv, Next, Enabled;
    if xs != [] {
      StepInv(s, xs[0]);
      RunInv(Next(s, xs[0]), xs[1..]);
    }
  }

  /** First in, first out: in every reachable state the bytes taken out are a prefix of the
      bytes put in, at most thirty-two behind, and the difference of the wrapping counters is
      exactly the number of bytes in between. */
  lemma Fifo(xs: seq<Step>)
    requires Legal(Init(), xs)
    ensures var s := Run(Init(), xs);
            s.got <= s.written && |s.written| - |s.got| <= PIPE_SIZE
            && Minus(s.wpos, s.rpos) == |s.written| - |s.got|
  {
    RunInv(Init(), xs);
    var s := Run(Init(), xs);
    Wrap(|s.got|, |s.written|);
  }

  /** A write returns the number of bytes of its argument that went in, in order, and falls
      short only when the reader has closed. */
  lemma WriteReturns(xs: seq<Step>)
    requires Legal(Init(), xs) && Run(Init(), xs).writer.WIdle?
    ensures var s := Run(Init(), xs);
            && s.wbase <= |s.written| && s.writer.ret <= |s.writer.data|
            && s.written[s.wbase..] == s.writer.data[..s.writer.ret]
            && (s.writer.ret < |s.writer.data| ==> s.reader.RGone?)
  {
    RunInv(Init(), xs);
  }

  /** A read returns the bytes that follow those already taken; it falls short only after
      seeing the ring empty, and returns nothing only when the writer has closed.  What is then
      unread is exactly what was written after that look at the ring. */
  lemma ReadReturns(xs: seq<Step>)
    requires Legal(Init(), xs) && Run(Init(), xs).reader.RIdle?
    ensures var s := Run(Init(), xs);
            && s.rbase <= |s.got| <= |s.written| && s.reader.ret == |s.got| - s.rbase <= s.reader.n
            && s.got[s.rbase..] == s.written[s.rbase..|s.got|]
            && (s.reader.ret < s.reader.n ==>
                  s.reader.seen <= |s.written| && s.got == s.written[..s.reader.seen]
                  && (s.reader.ret == 0 ==> s.writer.WGone?))
  {
    RunInv(Init(), xs);
  }

  // ---------------------------------------------------------------------------
  // Is a short read the end of the file?

  /** After the writer has closed, a look at the ring sees all there will ever be. */
  ghost predicate SeesAll(s: State) {
    && s.writer.WGone?
    && (s.reader.REmpty? ==> s.reader.seen == |s.written|)
    && (s.reader.RIdle? && s.reader.ret < s.reader.n ==> s.reader.seen == |s.written|)
  }

  lemma {:induction false} SeesAllRun(s: State, ys: seq<Step>)
    requires SeesAll(s) && Legal(s, ys)
    ensures SeesAll(Run(s, ys))
    decreases |ys|
  {
    if ys != [] {
      SeesAllRun(Next(s, ys[0]), ys[1..]);
    }
  }

  /** A read that is called after the writer has closed and falls short has taken every byte
      ever written. */
  lemma ShortReadIsEnd(xs: seq<Step>, n: nat, ys: seq<Step>)
    requires Legal(Init(), xs) && Run(Init(), xs).writer.WGone? && Enabled(Run(Init(), xs), ReadCall(n))
    requires Legal(Next(Run(Init(), xs), ReadCall(n)), ys)
    ensures var t := Run(Next(Run(Init(), xs), ReadCall(n)), ys);
            t.reader.RIdle? && t.reader.ret < t.reader.n ==> t.got == t.written
  {
    RunInv(Init(), xs);
    var s := Next(Run(Init(), xs), ReadCall(n));
    StepInv(Run(Init(), xs), ReadCall(n));
    RunInv(s, ys);
    SeesAllRun(s, ys);
  }

  lemma WriteOne(s: State, b: nat)
    requires Inv(s) && s.writer.WIdle? && s.got == s.written
    ensures var s3 := Next(s, WriteCall([b]));
            Enabled(s3, WriteStep) && var s4 := Next(s3, WriteStep);
            Enabled(s4, WriteStep) && var s5 := Next(s4, WriteStep);
            Enabled(s5, WriteStep) && var s6 := Next(s5, WriteStep);
            Enabled(s6, WriteClose) && s6.written == s.written + [b] && s6.got == s.got
            && s6.reader == s.reader && s6.rbase == s.rbase
  {
    Wrap(|s.got|, |s.written|);
    hide Slot, Wrapped, Minus;
  }

  lemma EmptyThenClosed(s: State, b: nat)
    requires Inv(s) && s.writer.WIdle? && s.reader.RIdle? && s.got == s.written
    ensures var s2 := Next(Next(s, ReadCall(1)), ReadStep);
            Enabled(s2, WriteCall([b])) && var s3 := Next(s2, WriteCall([b]));
            Enabled(s3, WriteStep) && var s4 := Next(s3, WriteStep);
            Enabled(s4, WriteStep) && var s5 := Next(s4, WriteStep);
            Enabled(s5, WriteStep) && var s6 := Next(s5, WriteStep);
            Enabled(s6, WriteClose) && var s7 := Next(s6, WriteClose);
            Enabled(s7, ReadStep) && var s8 := Next(s7, ReadStep);
            s8.written == s8.got + [b] && s8.reader == RIdle(1, 0, |s.got|) && s8.writer.WGone?
  {
    Wrap(|s.got|, |s.written|);
    var s1 := Next(s, ReadCall(1));
    StepInv(s, ReadCall(1));
    StepInv(s1, ReadStep);
    hide Inv, Slot, Wrapped, Minus, WriterStep;
    WriteOne(Next(s1, ReadStep), b);
  }

  /** Otherwise it need not be: from any reachable state with both sides idle and the ring
      empty, the writer may write and close between the reader's look at the ring and its look
      at the reference counts, and the read returns 0 with that byte unread. */
  lemma EarlyEnd(xs: seq<Step>, b: nat)
    requires Legal(Init(), xs)
    requires Run(Init(), xs).writer.WIdle? && Run(Init(), xs).reader.RIdle?
    requires Run(Init(), xs).got == Run(Init(), xs).written
    ensures exists ys :: Legal(Run(Init(), xs), ys) &&
              var t := Run(Run(Init(), xs), ys);
              t.reader.RIdle? && t.reader.n == 1 && t.reader.ret == 0 && t.writer.WGone? && t.written == t.got + [b]
  {
    RunInv(Init(), xs);
    var s := Run(Init(), xs);
    EmptyThenClosed(s, b);
    var s1 := Next(s, ReadCall(1));
    var s2 := Next(s1, ReadStep);
    var s3 := Next(s2, WriteCall([b]));
    var s4 := Next(s3, WriteStep);
    var s5 := Next(s4, WriteStep);
    var s6 := Next(s5, WriteStep);
    var s7 := Next(s6, WriteClose);
    hide Next, Enabled, Inv;
    Extend(s7, ReadStep, []);
    Extend(s6, WriteClose, [ReadStep]);
    Extend(s5, WriteStep, [WriteClose, ReadStep]);
    Extend(s4, WriteStep, [WriteStep, WriteClose, ReadStep]);
    Extend(s3, WriteStep, [WriteStep, WriteStep, WriteClose, ReadStep]);
    Extend(s2, WriteCall([b]), [WriteStep, WriteStep, WriteStep, WriteClose, ReadStep]);
    Extend(s1, ReadStep, [WriteCall([b]), WriteStep, WriteStep, WriteStep, WriteClose, ReadStep]);
    Extend(s, ReadCall(1), [ReadStep, WriteCall([b]), WriteStep, WriteStep, WriteStep, WriteClose, ReadStep]);
  }

  lemma Extend(s: State, x: Step, ys: seq<Step>)
    requires Enabled(s, x) && Legal(Next(s, x), ys)
    ensures Legal(s, [x] + ys) && Run(s, [x] + ys) == Run(Next(s, x), ys)
  {
    assert ([x] + ys)[1..] == ys;
  }

  // ---------------------------------------------------------------------------
  // Calls that need not wait

  lemma ExtendThree(s: State, x: Step, ys: seq<Step>)
    requires Enabled(s, x) && Enabled(Next(s, x), x) && Enabled(Next(Next(s, x), x), x)
    requires Legal(Next(Next(Next(s, x), x), x), ys)
    ensures Legal(s, [x, x, x] + ys) && Run(s, [x, x, x] + ys) == Run(Next(Next(Next(s, x), x), x), ys)
  {
    hide Enabled, Next;
    var a := Next(s, x);
    var b := Next(a, x);
    Extend(b, x, ys);
    Extend(a, x, [x] + ys);
    Extend(s, x, [x] + ([x] + ys));
    assert [x] + ([x] + ([x] + ys)) == [x, x, x] + ys;
  }

  /** One byte goes in, in three accesses. */
  lemma PutByte(s: State)
    requires Inv(s) && s.writer.WTest? && |s.written| < |s.got| + PIPE_SIZE
    ensures Enabled(s, WriteStep) && var a := Next(s, WriteStep);
            Enabled(a, WriteStep) && var b := Next(a, WriteStep);
            Enabled(b, WriteStep) && var r := Next(b, WriteStep);
            && Inv(r) && r.got == s.got && r.wbase == s.wbase && |s.written| - s.wbase < |s.writer.data|
            && r.written == s.written + [s.writer.data[|s.written| - s.wbase]]
            && r.writer == if |r.written| - s.wbase < |s.writer.data| then s.writer
                           else WIdle(s.writer.data, |s.writer.data|)
  {
    Wrap(|s.got|, |s.written|);
    StepInv(s, WriteStep);
    var a := Next(s, WriteStep);
    StepInv(a, WriteStep);
    StepInv(Next(a, WriteStep), WriteStep);
    hide Slot, Wrapped, Minus;
  }

  /** One byte comes out, the oldest. */
  lemma TakeByte(s: State)
    requires Inv(s) && s.reader.RTest? && |s.got| < |s.written|
    ensures Enabled(s, ReadStep) && var a := Next(s, ReadStep);
            Enabled(a, ReadStep) && var b := Next(a, ReadStep);
            Enabled(b, ReadStep) && var r := Next(b, ReadStep);
            && Inv(r) && r.written == s.written && r.rbase == s.rbase && r.got == s.got + [s.written[|s.got|]]
            && (if |r.got| - s.rbase < s.reader.n then r.reader == s.reader
                else r.reader.RIdle? && r.reader.ret == r.reader.n == s.reader.n)
  {
    Wrap(|s.got|, |s.written|);
    StepInv(s, ReadStep);
    var a := Next(s, ReadStep);
    StepInv(a, ReadStep);
    StepInv(Next(a, ReadStep), ReadStep);
    hide Slot, Wrapped, Minus;
  }

  /** A write that finds room for the rest of its bytes puts them all in and returns their number. */
  lemma {:induction false} WriteFits(s: State) returns (xs: seq<Step>)
    requires Inv(s) && s.writer.WTest? && s.wbase + |s.writer.data| <= |s.got| + PIPE_SIZE
    ensures Legal(s, xs) && forall k :: 0 <= k < |xs| ==> xs[k] == WriteStep
    ensures
      var t := Run(s, xs);
      && t.writer == WIdle(s.writer.data, |s.writer.data|) && s.wbase <= |s.written|
      && t.written == s.written[..s.wbase] + s.writer.data && t.got == s.got
    decreases s.wbase + |s.writer.data| - |s.written|
  {
    WrittenSoFar(s);
    PutByte(s);
    OneMore(s.written, s.wbase, s.writer.data);
    hide Next, Enabled, Inv;
    var x := WriteStep;
    var r := Next(Next(Next(s, x), x), x);
    var ys := [];
    if r.writer.WTest? { ys := WriteFits(r); }
    ExtendThree(s, x, ys);
    xs := [x, x, x] + ys;
  }

  lemma WrittenSoFar(s: State)
    requires Inv(s) && s.writer.WTest?
    ensures s.wbase <= |s.written| < s.wbase + |s.writer.data|
    ensures s.written[s.wbase..] == s.writer.data[..|s.written| - s.wbase]
  {
  }

  lemma OneMore(w: seq<nat>, base: nat, data: seq<nat>)
    requires base <= |w| < base + |data| && w[base..] == data[..|w| - base]
    ensures
      var v := w + [data[|w| - base]];
      v[..base] == w[..base] && (|v| - base == |data| ==> v == w[..base] + data)
  {
    var i := |w| - base;
    assert w == w[..base] + w[base..];
    if i + 1 == |data| { assert data == data[..i] + [data[i]]; }
  }

  /** After its first byte a read that finds the ring empty returns what it has. */
  lemma EmptyReturns(s: State)
    requires Inv(s) && s.reader.RTest? && s.got == s.written && |s.got| > s.rbase
    ensures Enabled(s, ReadStep) && Enabled(Next(s, ReadStep), ReadStep)
    ensures
      var r := Next(Next(s, ReadStep), ReadStep);
      && r.got == s.got && r.written == s.written && r.reader.RIdle? && r.reader.ret == |s.got| - s.rbase
  {
    Wrap(|s.got|, |s.written|);
    hide Slot, Wrapped, Minus;
  }

  /** A read that finds bytes takes as many as it wants, or all there are, and returns. */
  lemma {:induction false} ReadTakes(s: State) returns (xs: seq<Step>)
    requires Inv(s) && s.reader.RTest? && |s.got| < |s.written|
    ensures Legal(s, xs) && forall k :: 0 <= k < |xs| ==> xs[k] == ReadStep
    ensures
      var t := Run(s, xs);
      && t.reader.RIdle? && t.written == s.written && s.rbase <= |s.got| <= |t.got|
      && t.reader.ret == |t.got| - s.rbase
      && |t.got| == (if s.rbase + s.reader.n <= |s.written| then s.rbase + s.reader.n else |s.written|)
    decreases |s.written| - |s.got|
  {
    TakeByte(s);
    var x := ReadStep;
    var r := Next(Next(Next(s, x), x), x);
    var ys := [];
    if r.reader.RTest? {
      if |r.got| < |r.written| {
        hide Next, Enabled, Inv;
        ys := ReadTakes(r);
      } else {
        assert r.got == r.written;
        EmptyReturns(r);
        hide Next, Enabled, Inv;
        Extend(Next(r, x), x, []);
        Extend(r, x, [x] + []);
        ys := [x] + ([x] + []);
      }
    }
    hide Next, Enabled, Inv;
    ExtendThree(s, x, ys);
    xs := [x, x, x] + ys;
  }
}
