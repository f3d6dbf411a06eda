/** The block map of fs/fs.c: the free-block bitmap and the block pointers of a file, through
    allocation, the walk from a file index to its pointer, and truncation. */
module FsBlocks {
  import opened Bitmap
  import Layout = FsLayout

  const BLOCK_SIZE: nat := Layout.BLOCK_SIZE
  const NDIRECT: nat := Layout.NDIRECT
  const NINDIRECT: nat := Layout.NINDIRECT
  const WORD: nat := 0x1_0000_0000

  /** The part of struct File that names blocks. */
  class File {
    var size: nat
    var direct: seq<nat>
    var indirect: nat

    constructor ()
      ensures size == 0 && direct == seq(NDIRECT, _ => 0) && indirect == 0
    {
      size, direct, indirect := 0, seq(NDIRECT, _ => 0), 0;
    }
  }

  /** Where file_block_walk ends: a direct slot, a slot of the indirect block, or an error. */
  datatype Walked = Direct(i: nat) | Indexed(i: nat) | WalkFailed(e: Error)

  datatype Error = NotFound | NoDisk | NoMem | Invalid | Panic

  datatype Block = Found(b: nat) | Failed(e: Error)

  /** `ROUND(size, BLOCK_SIZE) / BLOCK_SIZE` in 32 bits. */
  function Blocks(size: nat): (r: nat) { (size + BLOCK_SIZE - 1) % WORD / BLOCK_SIZE }

  /** The largest size whose rounding does not wrap. */
  const MAX_SIZE: nat := WORD - BLOCK_SIZE

  /** It counts the blocks that hold bytes of the file: block k does if and only if its first byte is
      one. */
  lemma BlocksHold(size: nat, k: nat)
    requires size <= MAX_SIZE
    ensures k < Blocks(size) <==> k * BLOCK_SIZE < size
  {
  }

  /** Exactly up to there: above, the sum wraps and no block is counted. */
  lemma BlocksHoldIff(size: nat)
    requires size < WORD
    ensures (forall k: nat :: k < Blocks(size) <==> k * BLOCK_SIZE < size) <==> size <= MAX_SIZE
  {
    if size <= MAX_SIZE {
      forall k: nat ensures k < Blocks(size) <==> k * BLOCK_SIZE < size { BlocksHold(size, k); }
    } else {
      assert Blocks(size) == 0 && 0 * BLOCK_SIZE < size;
    }
  }

  /** The file's pointers as values: slot i, given the direct pointers and, when there is an
      indirect block, its words. */
  function SlotOf(direct: seq<nat>, indirect: nat, words: seq<nat>, i: nat): (r: nat)
    requires |direct| == NDIRECT && (indirect != 0 ==> |words| == NINDIRECT)
  {
    if i < NDIRECT then direct[i] else if indirect != 0 && i < NINDIRECT then words[i] else 0
  }

  /** The same walk on an image as the format tool writes it. */
  lemma SlotIsWalk(disk: seq<Layout.Block>, f: Layout.File, words: seq<nat>, i: nat)
    requires |f.direct| == NDIRECT
    requires f.indirect != 0 ==>
               f.indirect < |disk| && disk[f.indirect] == Layout.IndexBlock(words) && |words| == NINDIRECT
    ensures SlotOf(f.direct, f.indirect, words, i) == Layout.Walk(disk, f, i)
  {
  }

  // ---------------------------------------------------------------------------
  // A file that owns its blocks, on values

  ghost function Between(slots: seq<nat>, n: nat, lo: nat, hi: nat): (r: set<nat>) {
    set k | lo <= k < hi && k < |slots| && 0 < slots[k] < n :: slots[k]
  }

  /** The blocks a file's slots name, and its indirect block. */
  ghost function OwnSet(slots: seq<nat>, ind: nat, n: nat): (r: set<nat>) {
    Between(slots, n, 0, |slots|) + (if 0 < ind < n then {ind} else {})
  }

  /** Every pointer is on the disk, in use and names a block of its own, and nothing is named past
      the size. */
  ghost predicate OwnedBy(slots: seq<nat>, ind: nat, n: nat, free: set<nat>, count: nat) {
    && count <= |slots|
    && (ind != 0 ==> ind < n && ind !in free)
    && (forall k :: 0 <= k < |slots| && slots[k] != 0 ==>
          k < count && slots[k] < n && slots[k] !in free && slots[k] != ind)
    && (forall j, k :: 0 <= j < k < |slots| && slots[j] != 0 ==> slots[j] != slots[k])
  }

  /** It got block b in slot i, or an indirect block, or both. */
  lemma Grown(slots: seq<nat>, r: seq<nat>, ind: nat, ind': nat, n: nat, free: set<nat>, free': set<nat>, count: nat,
      i: nat, b: nat, taken: bool)
    requires OwnedBy(slots, ind, n, free, count) && i < count
    requires r == if taken then slots[i := b] else slots
    requires taken ==> slots[i] == 0 && 3 <= b < n && b in free && b != ind'
    requires ind' != ind ==> ind == 0 && 3 <= ind' < n && ind' in free
    requires free' == free - (if ind' != ind then {ind'} else {}) - (if taken then {b} else {})
    ensures OwnedBy(r, ind', n, free', count)
    ensures free' + OwnSet(r, ind', n) == free + OwnSet(slots, ind, n) && free' !! OwnSet(r, ind', n)
  {
    if taken {
      forall k | 0 <= k < |slots| && 0 < slots[k] < n ensures slots[k] in Between(r, n, 0, |r|) {
        assert r[k] == slots[k];
      }
      assert r[i] == b;
      assert Between(r, n, 0, |r|) == Between(slots, n, 0, |slots|) + {b};
    }
  }

  /** It lost its slots from count' on. */
  lemma Shrunk(slots: seq<nat>, r: seq<nat>, ind: nat, ind': nat, n: nat, free: set<nat>, free': set<nat>, count: nat,
      count': nat)
    requires OwnedBy(slots, ind, n, free, count) && count' <= count && |r| == |slots|
    requires forall k :: 0 <= k < |slots| ==> r[k] == if k < count' then slots[k] else 0
    requires ind' == if count' <= NDIRECT then 0 else ind
    requires free' == free + Between(slots, n, count', count) + (if count' <= NDIRECT && 0 < ind < n then {ind} else {})
    ensures OwnedBy(r, ind', n, free', count') && OwnSet(r, ind', n) <= OwnSet(slots, ind, n)
    ensures free' + OwnSet(r, ind', n) == free + OwnSet(slots, ind, n) && free' !! OwnSet(r, ind', n)
  {
    forall k | 0 <= k < |r| && 0 < r[k] < n ensures r[k] in Between(slots, n, 0, |slots|) { assert slots[k] == r[k]; }
    forall k | 0 <= k < |slots| && 0 < slots[k] < n
      ensures slots[k] in Between(r, n, 0, |r|) + Between(slots, n, count', count)
    {
      if k < count' { assert r[k] == slots[k]; }
    }
    assert Between(slots, n, 0, |slots|) == Between(r, n, 0, |r|) + Between(slots, n, count', count);
  }

  class FileSystem {
    const nblocks: nat
    /** One bit a block, one meaning free. */
    var bitmap: seq<Word>
    /** What blocks hold, read as words. */
    var index: map<nat, seq<nat>>
    /** The blocks the cache has pages for.  Freeing a block leaves its page there. */
    var cached: set<nat>

    ghost predicate Valid()
      reads this
    {
      nblocks <= 32 * |bitmap| && cached <= index.Keys && forall b :: b in index ==> |index[b]| == NINDIRECT
    }

    ghost function Free(): (r: set<nat>)
      reads this
    {
      Ones(bitmap)
    }

    ghost predicate Known(f: File)
      reads this, f
    {
      |f.direct| == NDIRECT && (f.indirect != 0 ==> f.indirect in index)
    }

    ghost function Slot(f: File, i: nat): (r: nat)
      requires Valid() && Known(f)
      reads this, f
    {
      SlotOf(f.direct, f.indirect, if f.indirect != 0 then index[f.indirect] else [], i)
    }

    constructor (n: nat)
      ensures nblocks == n && Valid() && Free() == {} && index == map[] && cached == {}
    {
      nblocks, index, cached := n, map[], {};
      bitmap := seq(n / 32 + 1, _ => seq(32, _ => false));
    }

    /** block_is_free. */
    method BlockIsFree(b: nat) returns (r: bool)
      requires Valid()
      ensures r <==> b < nblocks && b in Free()
    {
      r := b < nblocks && Bit(bitmap, b);
    }

    /** free_block: block 0 and blocks past the disk are ignored. */
    method FreeBlock(b: nat)
      requires Valid()
      modifies this`bitmap
      ensures Valid()
      ensures Free() == old(Free()) + (if 0 < b < nblocks then {b} else {})
    {
      if b == 0 || b >= nblocks {
        return;
      }
      SetOnes(bitmap, b);
      bitmap := Set(bitmap, b);
    }

    /** alloc_block_num: the smallest free block from 3 on, and no other bit changes. */
    method AllocBlockNum() returns (ok: bool, b: nat)
      requires Valid()
      modifies this`bitmap
      ensures Valid()
      ensures ok <==> exists c :: 3 <= c < nblocks && c in old(Free())
      ensures ok ==> 3 <= b < nblocks && b in old(Free()) && Free() == old(Free()) - {b}
      ensures ok ==> forall c :: 3 <= c < b ==> c !in old(Free())
      ensures !ok ==> Free() == old(Free())
    {
      b := 3;
      while b < nblocks
        invariant 3 <= b
        invariant bitmap == old(bitmap)
        invariant forall c :: 3 <= c < b && c < nblocks ==> c !in Free()
      {
        if Bit(bitmap, b) {
          assert b in old(Free());
          ClearOnes(bitmap, b);
          bitmap := Clear(bitmap, b);
          return true, b;
        }
        b := b + 1;
      }
      return false, 0;
    }

    /** The block alloc_block_num would take. */
    ghost predicate Smallest(b: nat)
      reads this
    {
      3 <= b < nblocks && b in Free() && forall c :: 3 <= c < b ==> c !in Free()
    }

    /** map_block, with so many pages left: a block that is not cached gets a zeroed page. */
    method MapBlock(b: nat, pages: nat) returns (ok: bool, left: nat)
      requires Valid()
      modifies this`index, this`cached
      ensures Valid()
      ensures ok <==> b in old(cached) || pages > 0
      ensures left == if b in old(cached) || pages == 0 then pages else pages - 1
      ensures cached == if ok then old(cached) + {b} else old(cached)
      ensures index == if ok && b !in old(cached) then old(index)[b := seq(NINDIRECT, _ => 0)] else old(index)
    {
      if b in cached {
        return true, pages;
      }
      if pages == 0 {
        return false, 0;
      }
      cached := cached + {b};
      index := index[b := seq(NINDIRECT, _ => 0)];
      return true, pages - 1;
    }

    /** alloc_block.  A block that cannot be mapped is given back. */
    method AllocBlock(pages: nat) returns (r: Block, left: nat)
      requires Valid()
      modifies this`bitmap, this`index, this`cached
      ensures Valid()
      ensures r.Found? ==> old(Smallest(r.b)) && Free() == old(Free()) - {r.b} && cached == old(cached) + {r.b}
      ensures r.Found? ==> index == if r.b in old(cached) then old(index) else old(index)[r.b := seq(NINDIRECT, _ => 0)]
      ensures r.Failed? ==> Free() == old(Free()) && cached == old(cached) && index == old(index)
      ensures r.Failed? ==> r.e in {NoDisk, NoMem}
      ensures r == Failed(NoDisk) <==> forall b :: !old(Smallest(b))
      ensures r == Failed(NoMem) <==> exists b :: old(Smallest(b)) && b !in old(cached) && pages == 0
      ensures left == pages || (r.Found? && left < pages)
    {
      var ok, b := AllocBlockNum();
      if !ok {
        return Failed(NoDisk), pages;
      }
      assert old(Smallest(b));
      ok, left := MapBlock(b, pages);
      if !ok {
        FreeBlock(b);
        return Failed(NoMem), left;
      }
      return Found(b), left;
    }

    /** Reading block b neither panics nor fails, with so many pages left. */
    predicate Readable(b: nat, pages: nat)
      requires Valid()
      reads this
    {
      InUse(b) && (b in cached || pages > 0)
    }

    /** On the disk and not marked free: what read_block insists on. */
    predicate InUse(b: nat): (r: bool)
      requires Valid()
      reads this
      ensures r <==> b < nblocks && b !in Free()
    {
      b < nblocks && !Bit(bitmap, b)
    }

    /** read_block.  A block that is not cached gets a page with what the disk holds. */
    method ReadBlock(b: nat, pages: nat, disk: seq<nat>) returns (r: Block, left: nat)
      requires Valid() && |disk| == NINDIRECT
      modifies this`index, this`cached
      ensures Valid()
      ensures r == Found(b) <==> old(Readable(b, pages))
      ensures r == Failed(Panic) <==> !old(InUse(b))
      ensures r == Failed(NoMem) <==> old(InUse(b)) && b !in old(cached) && pages == 0
      ensures cached == if r.Found? then old(cached) + {b} else old(cached)
      ensures index == if r.Found? && b !in old(index) then old(index)[b := disk] else old(index)
      ensures left == if b in old(cached) || r.Failed? then pages else pages - 1
    {
      if b >= nblocks || Bit(bitmap, b) {
        return Failed(Panic), pages;
      }
      if b in cached {
        return Found(b), pages;
      }
      if pages == 0 {
        return Failed(NoMem), pages;
      }
      cached := cached + {b};
      if b !in index {
        index := index[b := disk];
      }
      return Found(b), pages - 1;
    }

    /** file_block_walk.  If the cache still has a page for the block that becomes the indirect block,
        that page is what the new pointers are. */
    method FileBlockWalk(f: File, i: nat, alloc: bool, pages: nat) returns (r: Walked, left: nat)
      requires Valid() && Known(f)
      modifies this`bitmap, this`index, this`cached, f`indirect
      ensures Valid() && Known(f)
      ensures r.Direct? <==> i < NDIRECT
      ensures r.Direct? ==> r.i == i
      ensures r.Indexed? ==> r.i == i && NDIRECT <= i < NINDIRECT && f.indirect != 0
      ensures r == WalkFailed(Invalid) <==> i >= NINDIRECT
      ensures r == WalkFailed(NotFound) <==> NDIRECT <= i < NINDIRECT && old(f.indirect) == 0 && !alloc
      ensures r == WalkFailed(Panic) <==> NDIRECT <= i < NINDIRECT && old(f.indirect) != 0 && !old(InUse(f.indirect))
      ensures NDIRECT <= i < NINDIRECT && old(f.indirect) != 0 ==> (r.Indexed? <==> old(Readable(f.indirect, pages)))
      ensures r == WalkFailed(NoDisk) ==> old(f.indirect) == 0 && forall b :: !old(Smallest(b))
      ensures r == WalkFailed(NoMem) ==> pages == 0
      ensures alloc && NDIRECT <= i < NINDIRECT && old(f.indirect) == 0 ==>
                forall b :: old(Smallest(b)) && (b in old(cached) || pages > 0) ==> f.indirect == b
      ensures r.Indexed? && old(f.indirect) == 0 ==>
                var b := f.indirect;
                && alloc && old(Smallest(b)) && Free() == old(Free()) - {b} && cached == old(cached) + {b}
                && index == if b in old(cached) then old(index) else old(index)[b := seq(NINDIRECT, _ => 0)]
      ensures !(r.Indexed? && old(f.indirect) == 0) ==>
                && f.indirect == old(f.indirect) && Free() == old(Free()) && index == old(index)
                && cached == if r.Indexed? then old(cached) + {f.indirect} else old(cached)
      ensures left == pages || (left < pages && f.indirect in cached)
      ensures !r.Indexed? ==> left == pages
    {
      left := pages;
      if i < NDIRECT {
        return Direct(i), left;
      } else if i < NINDIRECT {
        var b;
        if f.indirect == 0 {
          if !alloc {
            return WalkFailed(NotFound), left;
          }
          b, left := AllocBlock(pages);
          if b.Failed? {
            return WalkFailed(b.e), left;
          }
          f.indirect := b.b;
        }
        b, left := ReadBlock(f.indirect, left, index[f.indirect]);
        if b.Failed? {
          return WalkFailed(b.e), left;
        }
        return Indexed(i), left;
      } else {
        return WalkFailed(Invalid), left;
      }
    }

    /** Nothing stale would come with block b as an indirect block. */
    ghost predicate Clean(b: nat)
      requires Valid()
      reads this
    {
      b in cached ==> forall k :: NDIRECT <= k < NINDIRECT ==> index[b][k] == 0
    }

    /** Block b was free and is not. */
    ghost predicate Taken(b: nat, was: set<nat>)
      reads this
    {
      3 <= b < nblocks && b in was && b !in Free()
    }

    /** A block for the empty slot i. */
    method FillSlot(f: File, i: nat, pages: nat) returns (r: Block, left: nat)
      requires Valid() && Known(f) && (i >= NDIRECT ==> f.indirect !in Free())
      requires i < NINDIRECT && (i < NDIRECT || f.indirect != 0) && Slot(f, i) == 0
      modifies this`bitmap, this`index, this`cached, f`direct
      ensures Valid() && Known(f)
      ensures r.Failed? ==> r.e in {NoDisk, NoMem} && f.direct == old(f.direct)
      ensures r.Failed? ==> Free() == old(Free()) && index == old(index) && cached == old(cached)
      ensures r == Failed(NoDisk) ==> forall b :: !Smallest(b)
      ensures r.Found? ==> old(Smallest(r.b)) && Free() == old(Free()) - {r.b} && Slot(f, i) == r.b
      ensures r.Found? && r.b != f.indirect ==>
                forall j: nat :: Slot(f, j) == if j == i then r.b else old(Slot(f, j))
      ensures forall c :: c in old(index) && c !in old(Free()) && c != f.indirect ==>
                c in index && index[c] == old(index[c])
    {
      r, left := AllocBlock(pages);
      hide Ones;
      if r.Failed? {
        forall b | r.e == NoDisk ensures !Smallest(b) { assert !old(Smallest(b)); }
        return;
      }
      if i < NDIRECT {
        f.direct := f.direct[i := r.b];
      } else {
        var words: seq<nat> := index[f.indirect];
        index := index[f.indirect := words[i := r.b]];
      }
    }

    /** With allocation the file's own slots stay right: no indirect block has to be made, or
        nothing stale comes with it; and no indirect block of the file's is the next to be given out. */
    ghost predicate Safe(f: File, i: nat, x: nat)
      requires Valid()
      reads this, f
    {
      if NDIRECT <= i && f.indirect == 0 then Clean(x) else f.indirect != 0 ==> !Smallest(f.indirect)
    }

    /** file_map_block.  It finds or makes block i of the file; and with allocation it does that and
        no more if and only if the call is safe. */
    method FileMapBlock(f: File, i: nat, alloc: bool, pages: nat) returns (r: Block, left: nat)
      requires Valid() && Known(f)
      modifies this`bitmap, this`index, this`cached, f`direct, f`indirect
      ensures Valid() && Known(f)
      ensures r == Failed(Invalid) <==> i >= NINDIRECT
      ensures r == Failed(Panic) <==> NDIRECT <= i < NINDIRECT && old(f.indirect) != 0 && !old(InUse(f.indirect))
      ensures r == Failed(NotFound) ==> i < NINDIRECT && !alloc && old(Slot(f, i)) == 0
      ensures !alloc && i < NINDIRECT && old(Slot(f, i)) == 0 ==> r.Failed?
      ensures r.Found? ==> r.b != 0 && Slot(f, i) == r.b
      ensures !alloc || old(Slot(f, i)) != 0 ==>
                && f.direct == old(f.direct) && f.indirect == old(f.indirect)
                && Free() == old(Free()) && index == old(index)
      ensures r.Found? && old(Slot(f, i)) == 0 ==>
                (&& (forall j: nat :: j != i ==> Slot(f, j) == old(Slot(f, j)))
                 && Taken(r.b, old(Free())) && r.b != f.indirect
                 <==> var x := f.indirect; old(Safe(f, i, x)))
      ensures r.Failed? && (f.indirect != old(f.indirect) ==> var x := f.indirect; old(Clean(x))) ==>
                forall j: nat :: Slot(f, j) == old(Slot(f, j))
      ensures f.indirect != old(f.indirect) ==>
                i >= NDIRECT && old(f.indirect) == 0 && f.indirect !in Free() && var x := f.indirect; old(Smallest(x))
      ensures alloc && NDIRECT <= i < NINDIRECT && old(f.indirect) == 0 ==>
                forall b :: old(Smallest(b)) && (b in old(cached) || pages > 0) ==> f.indirect == b
      ensures f.indirect != old(f.indirect) ==>
                var x := f.indirect;
                x in old(cached) && i < NINDIRECT && old(index)[x][i] != 0 ==> r == Found(old(index)[x][i])
      ensures f.indirect == old(f.indirect) || (var x := f.indirect; old(Clean(x))) ==>
                Free() == old(Free()) - (if f.indirect != old(f.indirect) then {f.indirect} else {})
                                      - (if r.Found? && old(Slot(f, i)) == 0 then {r.b} else {})
      ensures Free() <= old(Free())
      ensures r == Failed(NoDisk) ==> forall b :: !Smallest(b)
      ensures forall c :: c in old(index) && c !in old(Free()) && c != f.indirect ==>
                c in index && index[c] == old(index[c])
    {
      var w;
      w, left := FileBlockWalk(f, i, alloc, pages);
      if w.WalkFailed? {
        forall b | w.e == NoDisk ensures !Smallest(b) { assert !old(Smallest(b)); }
        return Failed(w.e), left;
      }
      var p := if w.Direct? then f.direct[w.i] else index[f.indirect][w.i];
      ghost var x := f.indirect;
      if x != old(f.indirect) && !old(Clean(x)) {
        ghost var k :| NDIRECT <= k < NINDIRECT && old(index)[x][k] != 0;
        assert Slot(f, k) == old(index)[x][k] && old(Slot(f, k)) == 0;
      }
      assert i >= NDIRECT ==> f.indirect !in Free();
      hide Ones, Smallest;
      if p == 0 {
        if !alloc {
          return Failed(NotFound), left;
        }
        r, left := FillSlot(f, i, left);
      } else {
        r := Found(p);
      }
    }

    /** file_clear_block: the slot becomes empty and its block, if any, free; no other slot of
        the file changes.  ok is false for an error return or a panic. */
    method FileClearBlock(f: File, i: nat, pages: nat) returns (ok: bool, left: nat)
      requires Valid() && Known(f)
      modifies this`bitmap, this`index, this`cached, f`direct, f`indirect
      ensures Valid() && Known(f)
      ensures ok <==> i < NINDIRECT && (i < NDIRECT || (old(f.indirect) != 0 && old(Readable(f.indirect, pages))))
      ensures forall j: nat :: Slot(f, j) == if ok && j == i then 0 else old(Slot(f, j))
      ensures Free() == old(Free()) + (if ok && 0 < old(Slot(f, i)) < nblocks then {old(Slot(f, i))} else {})
      ensures index.Keys == old(index.Keys)
      ensures forall b :: b in index && b != f.indirect ==> index[b] == old(index[b])
      ensures f.indirect == old(f.indirect)
      ensures f.indirect in cached || left > 0 <==> old(f.indirect in cached || pages > 0)
    {
      var r;
      r, left := FileBlockWalk(f, i, false, pages);
      match r
      case Direct(k) =>
        if f.direct[k] != 0 {
          FreeBlock(f.direct[k]);
          f.direct := f.direct[k := 0];
        }
        ok := true;
      case Indexed(k) =>
        var b := f.indirect;
        if index[b][k] != 0 {
          FreeBlock(index[b][k]);
          index := index[b := index[b][k := 0]];
        }
        ok := true;
      case _ => ok := false;
    }

    /** The blocks slots lo..hi name. */
    ghost function Named(f: File, lo: nat, hi: nat): (r: set<nat>)
      requires Valid() && Known(f)
      reads this, f
    {
      set i: nat | lo <= i < hi && 0 < Slot(f, i) < nblocks :: Slot(f, i)
    }

    /** The slots lo..hi can be cleared: they exist, and the indirect block is there, can be read and
        is not itself freed before the last of them. */
    ghost predicate Clearable(f: File, lo: nat, hi: nat, pages: nat)
      requires Valid() && Known(f)
      reads this, f
    {
      lo < hi ==>
        && hi <= NINDIRECT
        && (hi > NDIRECT ==>
              && f.indirect != 0 && Readable(f.indirect, pages)
              && forall k: nat :: lo <= k < hi - 1 ==> Slot(f, k) != f.indirect)
    }

    /** The common loop of file_truncate: slots lo..hi are cleared; ok is false for a panic. */
    method ClearRange(f: File, lo: nat, hi: nat, pages: nat) returns (ok: bool)
      requires Valid() && Known(f)
      modifies this`bitmap, this`index, this`cached, f`direct, f`indirect
      ensures Valid() && Known(f)
      ensures ok <==> old(Clearable(f, lo, hi, pages))
      ensures ok ==> Free() == old(Free()) + old(Named(f, lo, hi))
      ensures ok ==> forall j: nat :: Slot(f, j) == if lo <= j < hi then 0 else old(Slot(f, j))
      ensures index.Keys == old(index.Keys)
      ensures forall b :: b in index && b != f.indirect ==> index[b] == old(index[b])
      ensures f.indirect == old(f.indirect)
    {
      hide Ones, SlotOf, InUse;
      var bno, left := lo, pages;
      while bno < hi
        invariant lo <= bno && (bno == lo || bno <= hi)
        invariant Valid() && Known(f)
        invariant lo < bno ==> bno <= NINDIRECT
        invariant lo < bno && bno > NDIRECT ==> old(f.indirect != 0 && Readable(f.indirect, pages))
        invariant bno > NDIRECT ==> forall k: nat :: lo <= k < bno - 1 ==> old(Slot(f, k)) != f.indirect
        invariant Free() == old(Free()) + old(Named(f, lo, bno))
        invariant forall j: nat :: Slot(f, j) == if lo <= j < bno then 0 else old(Slot(f, j))
        invariant index.Keys == old(index.Keys)
        invariant forall b :: b in index && b != f.indirect ==> index[b] == old(index[b])
        invariant f.indirect == old(f.indirect)
        invariant f.indirect in cached || left > 0 <==> old(f.indirect in cached || pages > 0)
      {
        assert InUse(f.indirect) <==> old(InUse(f.indirect)) && f.indirect !in old(Named(f, lo, bno));
        var cleared;
        cleared, left := FileClearBlock(f, bno, left);
        if !cleared {
          return false;
        }
        assert old(Named(f, lo, bno + 1)) == old(Named(f, lo, bno))
            + (if 0 < old(Slot(f, bno)) < nblocks then {old(Slot(f, bno))} else {});
        bno := bno + 1;
      }
      assert old(Named(f, lo, bno)) == old(Named(f, lo, hi));
      return true;
    }

    /** By bytes: slot k, which was b, is r after truncating from one size to another.  A block with
        bytes below the new size stays; one with bytes above it only goes to the free set. */
    ghost predicate Cut(k: nat, newsize: nat, oldsize: nat, b: nat, r: nat)
      reads this
    {
      && (k * BLOCK_SIZE < newsize ==> r == b)
      && (newsize <= k * BLOCK_SIZE < oldsize ==> r == 0 && (0 < b < nblocks ==> b in Free()))
    }

    /** file_truncate; ok is false where the source panics. */
    method FileTruncate(f: File, newsize: nat, pages: nat) returns (ok: bool)
      requires Valid() && Known(f)
      modifies this`bitmap, this`index, this`cached, f
      ensures Valid() && Known(f)
      ensures ok <==> old(Clearable(f, Blocks(newsize), Blocks(f.size), pages))
      ensures ok ==> f.size == newsize
      ensures ok ==> f.indirect == if Blocks(newsize) <= NDIRECT then 0 else old(f.indirect)
      ensures ok ==> Free() == old(Free()) + old(Named(f, Blocks(newsize), Blocks(f.size)))
                               + (if Blocks(newsize) <= NDIRECT && 0 < old(f.indirect) < nblocks
                                  then {old(f.indirect)} else {})
      ensures ok ==> (forall j: nat ::
                 Slot(f, j) == if Blocks(newsize) <= j < old(Blocks(f.size)) || Blocks(newsize) <= NDIRECT <= j then 0
                               else old(Slot(f, j)))
      ensures forall b :: b in index && b != old(f.indirect) ==> b in old(index) && index[b] == old(index[b])
      ensures ok && newsize <= MAX_SIZE && old(f.size) <= MAX_SIZE ==>
                forall k: nat :: Cut(k, newsize, old(f.size), old(Slot(f, k)), Slot(f, k))
      ensures ok && newsize <= MAX_SIZE ==>
                if newsize > NDIRECT * BLOCK_SIZE then f.indirect == old(f.indirect)
                else f.indirect == 0 && (0 < old(f.indirect) < nblocks ==> old(f.indirect) in Free())
    {
      ghost var was := f.size;
      var oldN := Blocks(f.size);
      var newN := Blocks(newsize);
      if newsize == 0 {
        newN := 0;
      }
      if newN <= NDIRECT {
        var done := ClearRange(f, newN, oldN, pages);
        if !done {
          return false;
        }
        label Cleared:
        if f.indirect != 0 {
          FreeBlock(f.indirect);
          f.indirect := 0;
        }
        assert forall j: nat :: Slot(f, j) == if j < NDIRECT then old@Cleared(Slot(f, j)) else 0;
      } else {
        var done := ClearRange(f, newN, oldN, pages);
        if !done {
          return false;
        }
      }
      label Unsized:
      f.size := newsize;
      assert forall j: nat :: Slot(f, j) == old@Unsized(Slot(f, j));
      if newsize <= MAX_SIZE { BlocksHold(newsize, NDIRECT); }
      if newsize <= MAX_SIZE && was <= MAX_SIZE {
        forall k: nat ensures Cut(k, newsize, was, old(Slot(f, k)), Slot(f, k)) {
          BlocksHold(newsize, k);
          BlocksHold(was, k);
        }
      }
      return true;
    }

    // -------------------------------------------------------------------------
    // A file that owns its blocks

    ghost function Slots(f: File): (r: seq<nat>)
      requires Valid() && Known(f)
      reads this, f
      ensures |r| == NINDIRECT && forall k: nat :: k < NINDIRECT ==> r[k] == Slot(f, k)
    {
      seq(NINDIRECT, k requires 0 <= k < NINDIRECT && Valid() && Known(f) reads this, f => Slot(f, k))
    }

    /** All blocks of a file: those its slots name and its indirect block. */
    ghost function Own(f: File): (r: set<nat>)
      requires Valid() && Known(f)
      reads this, f
    {
      OwnSet(Slots(f), f.indirect, nblocks)
    }

    ghost predicate Owned(f: File)
      reads this, f
    {
      Valid() && Known(f) && OwnedBy(Slots(f), f.indirect, nblocks, Free(), Blocks(f.size))
    }

    /** And a long file has an indirect block. */
    ghost predicate FileOk(f: File)
      reads this, f
    {
      Owned(f) && (Blocks(f.size) > NDIRECT ==> f.indirect != 0)
    }

    /** Truncating such a file panics only when the indirect block is needed and there is no page to
        read it into.  Otherwise it keeps it such a file, and moves exactly the dropped blocks from
        the file to the free set: nothing leaks and nothing kept is freed. */
    method Truncate(f: File, newsize: nat, pages: nat) returns (ok: bool)
      requires FileOk(f) && Blocks(newsize) <= Blocks(f.size)
      modifies this`bitmap, this`index, this`cached, f
      ensures ok <==> old(Blocks(newsize) < Blocks(f.size) && Blocks(f.size) > NDIRECT ==>
                            f.indirect in cached || pages > 0)
      ensures ok ==> FileOk(f) && f.size == newsize
      ensures ok ==> forall j: nat :: Slot(f, j) == if j < Blocks(newsize) then old(Slot(f, j)) else 0
      ensures ok ==> Free() + Own(f) == old(Free() + Own(f)) && Free() !! Own(f)
      ensures ok ==> old(Free()) <= Free() && Own(f) <= old(Own(f))
      ensures ok && newsize <= MAX_SIZE && old(f.size) <= MAX_SIZE ==>
                forall k: nat ::
                  && (k * BLOCK_SIZE < newsize ==>
                        Slot(f, k) == old(Slot(f, k)) && (Slot(f, k) == 0 || Slot(f, k) !in Free()))
                  && (newsize <= k * BLOCK_SIZE < old(f.size) ==> Slot(f, k) == 0)
                  && (newsize <= k * BLOCK_SIZE < old(f.size) && old(Slot(f, k)) != 0 ==> old(Slot(f, k)) in Free())
    {
      ghost var slots, ind, free, count := Slots(f), f.indirect, Free(), Blocks(f.size);
      assert forall k: nat :: k < NINDIRECT ==> Slot(f, k) == slots[k];
      ok := FileTruncate(f, newsize, pages);
      if !ok {
        return;
      }
      hide Blocks, SlotOf, Ones;
      assert old(Named(f, Blocks(newsize), Blocks(f.size))) == Between(slots, nblocks, Blocks(newsize), count);
      Shrunk(slots, Slots(f), ind, f.indirect, nblocks, free, Free(), count, Blocks(newsize));
    }

    /** file_map_block with allocation, when the indirect block, if there is one, is in use. */
    method MapSlot(f: File, i: nat, pages: nat) returns (r: Block, left: nat)
      requires Valid() && Known(f) && (f.indirect != 0 ==> InUse(f.indirect)) && i < NINDIRECT
      modifies this`bitmap, this`index, this`cached, f`direct, f`indirect
      ensures Valid() && Known(f) && Free() <= old(Free())
      ensures r != Failed(Panic) && (r.Found? ==> r.b != 0 && Slot(f, i) == r.b)
      ensures f.indirect != old(f.indirect) ==> old(f.indirect) == 0 && Taken(f.indirect, old(Free()))
      ensures (f.indirect != old(f.indirect) ==> var x := f.indirect; old(Clean(x))) ==>
                && (forall j: nat :: Slot(f, j) == if r.Found? && j == i then r.b else old(Slot(f, j)))
                && (r.Found? && old(Slot(f, i)) == 0 ==> Taken(r.b, old(Free())) && r.b != f.indirect)
                && (r.Found? && old(Slot(f, i)) != 0 ==> r.b == old(Slot(f, i)))
                && Free() == old(Free()) - (if f.indirect != old(f.indirect) then {f.indirect} else {})
                                         - (if r.Found? && old(Slot(f, i)) == 0 then {r.b} else {})
      ensures forall c :: c in old(index) && c !in old(Free()) && c != f.indirect ==>
                c in index && index[c] == old(index[c])
    {
      r, left := FileMapBlock(f, i, true, pages);
      ghost var x := f.indirect;
      if x == old(f.indirect) || old(Clean(x)) {
        assert r.Found? ==> old(Safe(f, i, x));
        hide Clean, Safe;
      }
    }

    /** Block i of such a file is found or made.  Unless a stale indirect block was reused, the file is
        still such a file and blocks only move from the free set to it. */
    method MapOwnBlock(f: File, i: nat, pages: nat) returns (r: Block, left: nat)
      requires Owned(f) && i < Blocks(f.size)
      modifies this`bitmap, this`index, this`cached, f`direct, f`indirect
      ensures Valid() && Known(f) && Free() <= old(Free())
      ensures r != Failed(Panic) && (r.Found? ==> r.b != 0 && Slot(f, i) == r.b)
      ensures (f.indirect != old(f.indirect) ==> var x := f.indirect; old(Clean(x))) ==>
                && Owned(f) && Free() !! Own(f)
                && Free() + Own(f) == old(Free() + Own(f))
      ensures f.indirect != old(f.indirect) ==> f.indirect in old(Free())
      ensures forall c :: c in old(index) && c !in old(Free()) && c != f.indirect ==>
                c in index && index[c] == old(index[c])
    {
      hide Clean, Blocks, SlotOf, Ones, InUse;
      ghost var slots, ind, free := Slots(f), f.indirect, Free();
      r, left := MapSlot(f, i, pages);
      ghost var x := f.indirect;
      if x == old(f.indirect) || old(Clean(x)) {
        var taken := r.Found? && slots[i] == 0;
        Grown(slots, Slots(f), ind, x, nblocks, free, Free(), Blocks(f.size), i, if r.Found? then r.b else 0, taken);
      }
    }

    /** file_get_block on such a file: the block is found or made and read, and without a stale
        indirect block it never panics. */
    method FileGetBlock(f: File, i: nat, pages: nat, disk: seq<nat>) returns (r: Block)
      requires Owned(f) && i < Blocks(f.size) && |disk| == NINDIRECT
      modifies this`bitmap, this`index, this`cached, f`direct, f`indirect
      ensures Valid() && Known(f) && Free() <= old(Free())
      ensures r.Found? ==> Slot(f, i) == r.b && r.b in cached && r.b < nblocks && r.b !in Free()
      ensures (f.indirect != old(f.indirect) ==> var x := f.indirect; old(Clean(x))) ==>
                && Owned(f) && Free() !! Own(f) && r != Failed(Panic)
                && Free() + Own(f) == old(Free() + Own(f))
      ensures f.indirect != old(f.indirect) ==> f.indirect in old(Free())
      ensures forall c :: c in old(index) && c !in old(Free()) && c != f.indirect ==>
                c in index && index[c] == old(index[c])
    {
      var left;
      r, left := MapOwnBlock(f, i, pages);
      if r.Failed? {
        return;
      }
      label Mapped:
      ghost var b, x := r.b, f.indirect;
      r, left := ReadBlock(r.b, left, disk);
      assert Slots(f) == old@Mapped(Slots(f));
      hide Blocks, SlotOf, Ones;
    }

    /** Beside another such file, which keeps its slots and its blocks in any case. */
    method GetBlock(f: File, g: File, i: nat, pages: nat, disk: seq<nat>) returns (r: Block)
      requires Owned(f) && Owned(g) && f != g && Own(f) !! Own(g) && i < Blocks(f.size) && |disk| == NINDIRECT
      modifies this`bitmap, this`index, this`cached, f`direct, f`indirect
      ensures Owned(g) && Own(g) == old(Own(g)) && forall j: nat :: Slot(g, j) == old(Slot(g, j))
      ensures (f.indirect != old(f.indirect) ==> var x := f.indirect; old(Clean(x))) ==> Owned(f) && Own(f) !! Own(g)
    {
      assert f.indirect in Own(f) || f.indirect == 0;
      assert g.indirect in Own(g) || g.indirect == 0;
      r := FileGetBlock(f, i, pages, disk);
      assert g.indirect != 0 ==> g.indirect != f.indirect;
      assert forall j: nat :: Slot(g, j) == old(Slot(g, j));
      assert Slots(g) == old(Slots(g));
      hide Blocks, SlotOf, Ones, Slot;
    }
  }

  /** Block 3 is free, but the cache still has its page, full of sevens.  It becomes the indirect
      block of a file, and the file's new block is 7, which was in use. */
  method StaleIndirect() returns (r: Block, inUse: bool)
    ensures r == Found(7) && inUse
  {
    var fs := new FileSystem(8);
    var f := new File();
    fs.FreeBlock(3);
    var sevens: seq<nat> := seq(NINDIRECT, _ => 7);
    fs.index, fs.cached := map[3 := sevens], {3};
    assert fs.Smallest(3);
    var free := fs.BlockIsFree(7);
    inUse := !free;
    var left;
    r, left := fs.FileMapBlock(f, NDIRECT, true, 0);
  }
}
