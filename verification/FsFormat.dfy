/** tools/fsformat.c: the global disk, written block by block and through pointers into it,
    ends up as the image of the tree it was given. */
module FsFormat {
  import opened Bitmap
  import opened FsLayout

  /** A `struct File *`: the root entry in the super block, or an entry of a block. */
  datatype Ref = Root | Entry(bno: nat, k: nat)

  /** Names are nonempty and shorter than MAXNAMELEN. */
  predicate GoodNode(node: Node)
    decreases node
  {
    0 < |node.name| < 128 && (node.Dir? ==> GoodNodes(node.children))
  }

  predicate GoodNodes(ch: seq<Node>)
    decreases ch
  {
    forall k :: 0 <= k < |ch| ==> GoodNode(ch[k])
  }

  function BlocksFor(n: nat): (r: nat) { (n + FILE2BLK - 1) / FILE2BLK }

  /** A place for a file whose own blocks start at lo. */
  ghost predicate RefOk(disk: seq<Block>, r: Ref, lo: nat) {
    r.Entry? ==>
      r.bno < lo && r.bno < |disk| && disk[r.bno].FileBlock? && |disk[r.bno].entries| == FILE2BLK && r.k < FILE2BLK
  }

  /** Below lo nothing changed but the entry r. */
  ghost predicate SameBelow(d: seq<Block>, t: seq<Block>, lo: nat, r: Ref) {
    && |d| == |t|
    && (forall b :: 0 <= b < lo && b < |d| && !(r.Entry? && b == r.bno) ==> t[b] == d[b])
    && (r.Entry? ==>
          && RefOk(d, r, lo) && RefOk(t, r, lo)
          && t[r.bno].entries == d[r.bno].entries[r.k := t[r.bno].entries[r.k]])
  }

  lemma BelowTrans(d: seq<Block>, m: seq<Block>, t: seq<Block>, lo: nat, r: Ref)
    requires SameBelow(d, m, lo, r) && SameBelow(m, t, lo, r)
    ensures SameBelow(d, t, lo, r)
  {
  }

  /** The pointers of a directory after one more block of entries was linked. */
  lemma LinksGrow(d: seq<Block>, t: seq<Block>, f: File, g: File, ch: seq<Node>, nb: nat, lo: nat)
    requires LinksAt(d, f, ch, nb, lo) && |ch| == FILE2BLK * nb && nb < NINDIRECT
    requires nb < NDIRECT ==> g == f.(direct := f.direct[nb := lo + DirNeed(ch)], size := f.size + BLOCK_SIZE)
    requires nb >= NDIRECT ==>
               var x := if nb == NDIRECT then lo + DirNeed(ch) + 1 else f.indirect;
               && g == f.(indirect := x, size := f.size + BLOCK_SIZE) && x < |t|
               && t[x] == IndexBlock((if nb == NDIRECT then Words() else d[f.indirect].words)[nb := lo + DirNeed(ch)])
    ensures LinksAt(t, g, ch, nb + 1, lo)
  {
    assert ch[..|ch|] == ch;
    hide DirNeed;
  }

  /** One more chunk of a regular file. */
  lemma LeafStep(d: seq<Block>, t: seq<Block>, f: File, g: File, bytes: seq<nat>, lo: nat, c: nat)
    requires LeafAt(d, f, bytes, lo, c) && c < NINDIRECT && lo + LeafNeed(c + 1) <= |t| && |d| == |t|
    requires t[ChunkBlock(lo, c)] == DataBlock(Chunk(bytes, c))
    requires c < NDIRECT ==> g == f.(direct := f.direct[c := ChunkBlock(lo, c)]) && Same(d, t, lo, lo + LeafNeed(c))
    requires c >= NDIRECT ==>
               && g == f.(indirect := lo + NDIRECT + 1) && SameButIndex(d, t, lo, lo + LeafNeed(c), lo + NDIRECT + 1)
               && var prev := if c == NDIRECT then Words() else d[f.indirect].words;
                  t[lo + NDIRECT + 1] == IndexBlock(prev[c := ChunkBlock(lo, c)])
    ensures LeafAt(t, g, bytes, lo, c + 1)
  {
  }

  /** The bitmap block says that exactly blocks n..NBLOCK are free. */
  ghost predicate FreeFrom(words: seq<Word>, n: nat) {
    |words| == BLOCK_SIZE / 4 && forall b: nat :: b < 32 * |words| ==> (Bit(words, b) <==> n <= b < NBLOCK)
  }

  lemma TakeBlock(words: seq<Word>, n: nat)
    requires FreeFrom(words, n) && n < NBLOCK
    ensures FreeFrom(Clear(words, n), n + 1)
  {
    forall b: nat | b < 32 * |words| ensures Bit(Clear(words, n), b) <==> n + 1 <= b < NBLOCK {
      assert Bit(words, b) <==> n <= b < NBLOCK;
    }
  }

  class Formatter {
    var disk: seq<Block>
    var nextbno: nat
    var root: File

    ghost predicate Valid()
      reads this
    {
      |disk| == NBLOCK && nextbno <= NBLOCK
    }

    /** init_disk: boot block, super block and bitmap, every block of the disk marked free and
        the bits past its end zero, and an empty root. */
    constructor ()
      ensures Holds(Root, [], 0, 3) && nextbno == 3 && root.name == "/"
      ensures disk[0].BootBlock? && disk[1].SuperBlock? && disk[2].BitmapBlock?
      ensures FreeFrom(disk[2].map_, 0)
    {
      var words: seq<Word> := seq(BLOCK_SIZE / 4, _ => seq(32, _ => true));
      words := seq(BLOCK_SIZE / 4, k requires 0 <= k < BLOCK_SIZE / 4 =>
                     if k < NBLOCK / 32 then words[k] else seq(32, _ => false));
      disk := [BootBlock, SuperBlock, BitmapBlock(words)] + seq(NBLOCK - 3, _ => FreeBlock);
      nextbno := 3;
      root := File("/", 0, true, Pointers(), 0);
      new;
      EmptyDir(disk, root, [], 3);
    }

    function Get(r: Ref): (f: File)
      requires r.Entry? ==> r.bno < |disk| && disk[r.bno].FileBlock? && r.k < |disk[r.bno].entries|
      reads this
    {
      if r.Root? then root else disk[r.bno].entries[r.k]
    }

    /** A store through the pointer. */
    method Put(r: Ref, f: File)
      requires Valid() && RefOk(disk, r, NBLOCK)
      modifies this`disk, this`root
      ensures Valid() && RefOk(disk, r, NBLOCK) && Get(r) == f
      ensures SameBelow(old(disk), disk, NBLOCK, r)
      ensures r.Root? ==> disk == old(disk)
      ensures r.Entry? ==> root == old(root)
    {
      if r.Root? {
        root := f;
      } else {
        disk := disk[r.bno := FileBlock(disk[r.bno].entries[r.k := f])];
      }
    }

    /** next_block, with the contents the block ends up with. */
    method NextBlock(blk: Block) returns (bno: nat)
      requires Valid() && nextbno < NBLOCK
      modifies this`disk, this`nextbno
      ensures Valid() && bno == old(nextbno) && nextbno == bno + 1 && disk == old(disk)[bno := blk]
    {
      disk := disk[nextbno := blk];
      bno := nextbno;
      nextbno := nextbno + 1;
    }

    /** save_block_link: the pointer nblk of the file becomes bno, through a new index block if
        need be; no other pointer changes, and no other block from lo on. */
    method SaveBlockLink(r: Ref, nblk: nat, bno: nat, ghost lo: nat)
      requires Valid() && RefOk(disk, r, lo) && lo <= nextbno && nblk < NINDIRECT && |Get(r).direct| == NDIRECT
      requires nblk >= NDIRECT && Get(r).indirect == 0 ==> nextbno < NBLOCK
      requires nblk >= NDIRECT && Get(r).indirect != 0 ==>
                 && lo <= Get(r).indirect < nextbno && disk[Get(r).indirect].IndexBlock?
                 && |disk[Get(r).indirect].words| == NINDIRECT
      modifies this
      ensures Valid() && SameBelow(old(disk), disk, lo, r) && RefOk(disk, r, lo)
      ensures r.Entry? ==> root == old(root)
      ensures nblk < NDIRECT ==>
                && nextbno == old(nextbno) && Same(old(disk), disk, lo, NBLOCK)
                && Get(r) == old(Get(r)).(direct := old(Get(r)).direct[nblk := bno])
      ensures nblk >= NDIRECT ==>
                var f, made := old(Get(r)), old(Get(r)).indirect == 0;
                var x := if made then old(nextbno) else f.indirect;
                && nextbno == (if made then x + 1 else old(nextbno)) && Get(r) == f.(indirect := x)
                && SameButIndex(old(disk), disk, lo, NBLOCK, x) && lo <= x < nextbno
                && disk[x] == IndexBlock((if made then Words() else old(disk)[x].words)[nblk := bno])
    {
      if nblk < NDIRECT {
        Put(r, Get(r).(direct := Get(r).direct[nblk := bno]));
      } else {
        if Get(r).indirect == 0 {
          var x := NextBlock(IndexBlock(Words()));
          Put(r, Get(r).(indirect := x));
        }
        var x := Get(r).indirect;
        disk := disk[x := IndexBlock(disk[x].words[nblk := bno])];
      }
    }

    /** The directory r holds ch, its blocks from lo on, and nothing comes after them. */
    ghost predicate Holds(r: Ref, ch: seq<Node>, nb: nat, lo: nat)
      reads this
    {
      && Valid() && RefOk(disk, r, lo) && 1 <= lo
      && DirAt(disk, Get(r), ch, nb, lo) && nextbno == lo + Extent(ch, nb)
    }

    /** save_block_link and the new size. */
    method LinkAndGrow(r: Ref, nblk: nat, bno: nat, ghost lo: nat)
      requires Valid() && RefOk(disk, r, lo) && lo <= nextbno && nblk < NINDIRECT && |Get(r).direct| == NDIRECT
      requires nblk >= NDIRECT && Get(r).indirect == 0 ==> nextbno < NBLOCK
      requires nblk >= NDIRECT && Get(r).indirect != 0 ==>
                 && lo <= Get(r).indirect < nextbno && disk[Get(r).indirect].IndexBlock?
                 && |disk[Get(r).indirect].words| == NINDIRECT
      modifies this
      ensures Valid() && SameBelow(old(disk), disk, lo, r) && RefOk(disk, r, lo)
      ensures r.Entry? ==> root == old(root)
      ensures nblk < NDIRECT ==>
                && nextbno == old(nextbno) && Same(old(disk), disk, lo, NBLOCK)
                && Get(r) == old(Get(r)).(direct := old(Get(r)).direct[nblk := bno],
                                          size := old(Get(r)).size + BLOCK_SIZE)
      ensures nblk >= NDIRECT ==>
                var f, made := old(Get(r)), old(Get(r)).indirect == 0;
                var x := if made then old(nextbno) else f.indirect;
                && nextbno == (if made then x + 1 else old(nextbno))
                && Get(r) == f.(indirect := x, size := f.size + BLOCK_SIZE)
                && SameButIndex(old(disk), disk, lo, NBLOCK, x) && lo <= x < nextbno
                && disk[x] == IndexBlock((if made then Words() else old(disk)[x].words)[nblk := bno])
    {
      ghost var d := disk;
      SaveBlockLink(r, nblk, bno, lo);
      ghost var m := disk;
      Put(r, Get(r).(size := Get(r).size + BLOCK_SIZE));
      BelowTrans(d, m, disk, lo, r);
    }

    /** make_link_block: a full directory gets one more block of unused entries. */
    method MakeLinkBlock(r: Ref, nblk: nat, ghost ch: seq<Node>, ghost lo: nat) returns (bno: nat)
      requires Holds(r, ch, nblk, lo) && |ch| == FILE2BLK * nblk && nblk < NINDIRECT
      requires nextbno + Room(|ch|) <= NBLOCK
      modifies this
      ensures Holds(r, ch, nblk + 1, lo) && bno == EntryBlock(ch, lo, nblk)
      ensures SameBelow(old(disk), disk, lo, r) && Get(r).name == old(Get(r)).name
      ensures r.Entry? ==> root == old(root)
    {
      assert ch[..|ch|] == ch;
      hide FileAt, EntryAt, EntryBlock, DirNeed, Need;
      ghost var d, f := disk, Get(r);
      if nblk > NDIRECT { Inside(ch, lo, nblk, NDIRECT); }
      bno := NextBlock(FileBlock(Blanks()));
      LinkAndGrow(r, nblk, bno, lo);
      LinksGrow(d, disk, f, Get(r), ch, nblk, lo);
      hide LinksAt;
      AddBlock(d, disk, f, Get(r), ch, nblk, lo);
    }

    /** The search in create_file: the unused entry after the last child, if there is one. */
    method FindUnused(r: Ref, ghost ch: seq<Node>, ghost lo: nat) returns (found: bool, target: Ref)
      requires Holds(r, ch, BlocksFor(|ch|), lo)
      ensures found <==> |ch| % FILE2BLK != 0
      ensures found ==> target == Entry(EntryBlock(ch, lo, |ch| / FILE2BLK), |ch| % FILE2BLK)
    {
      ghost var nb := BlocksFor(|ch|);
      hide FileAt, DirNeed, Need, Room, Extent;
      var nblk := Get(r).size / BLOCK_SIZE;
      for i := 0 to nblk
        invariant FILE2BLK * i <= |ch|
      {
        var bno := Walk(disk, Get(r), i);
        for e := 0 to FILE2BLK
          invariant FILE2BLK * i + e <= |ch|
        {
          NamesUsed(disk, ch, lo, i, e);
          if disk[bno].entries[e].name == "" {
            return true, Entry(bno, e);
          }
        }
      }
      return false, Root;
    }

    /** create_file: the first unused entry of the directory, in a new block when all are used. */
    method CreateFile(r: Ref, ghost ch: seq<Node>, ghost lo: nat) returns (target: Ref)
      requires Holds(r, ch, BlocksFor(|ch|), lo) && nextbno + Room(|ch|) <= NBLOCK
      modifies this
      ensures Holds(r, ch, |ch| / FILE2BLK + 1, lo)
      ensures target == Entry(EntryBlock(ch, lo, |ch| / FILE2BLK), |ch| % FILE2BLK) && lo <= target.bno < nextbno
      ensures RefOk(disk, target, nextbno) && Get(target) == Blank()
      ensures SameBelow(old(disk), disk, lo, r) && Get(r).name == old(Get(r)).name
      ensures r.Entry? ==> root == old(root)
    {
      var found;
      found, target := FindUnused(r, ch, lo);
      hide DirAt, DirNeed, Room;
      FullOrNot(|ch|);
      if !found {
        RoomLeft(disk, Get(r), ch, lo, nextbno);
        var bno := MakeLinkBlock(r, Get(r).size / BLOCK_SIZE, ch, lo);
        target := Entry(bno, 0);
      }
      OpenEntry(disk, Get(r), ch, |ch| / FILE2BLK + 1, lo);
    }

    /** One turn of the loop in write_file: a block of data and the link to it. */
    method WriteChunk(target: Ref, bytes: seq<nat>, c: nat, ghost lo: nat)
      requires Valid() && target.Entry? && RefOk(disk, target, lo) && LeafAt(disk, Get(target), bytes, lo, c)
      requires nextbno == lo + LeafNeed(c) && c < NINDIRECT && lo + LeafNeed(c + 1) <= NBLOCK
      modifies this
      ensures Valid() && RefOk(disk, target, lo) && SameBelow(old(disk), disk, lo, target) && root == old(root)
      ensures LeafAt(disk, Get(target), bytes, lo, c + 1) && nextbno == lo + LeafNeed(c + 1)
      ensures Get(target).name == old(Get(target)).name && Get(target).size == old(Get(target)).size
      ensures Get(target).dir == old(Get(target)).dir
    {
      ghost var d, f := disk, Get(target);
      var bno := NextBlock(DataBlock(Chunk(bytes, c)));
      SaveBlockLink(target, c, bno, lo);
      LeafStep(d, disk, f, Get(target), bytes, lo, c);
    }

    /** What write_file and write_directory begin with: f in the first unused entry of r.  was is
        the disk before f was stored. */
    method NewEntry(r: Ref, f: File, ghost ch: seq<Node>, ghost lo: nat) returns (target: Ref, ghost was: seq<Block>)
      requires Holds(r, ch, BlocksFor(|ch|), lo) && nextbno + Room(|ch|) <= NBLOCK
      modifies this
      ensures Valid() && RefOk(disk, r, lo) && Opening(was, Get(r), ch, lo, target, nextbno)
      ensures SameBelow(was, disk, nextbno, target) && Get(target) == f
      ensures nextbno == old(nextbno) + Room(|ch|)
      ensures SameBelow(old(disk), was, lo, r) && Get(r).name == old(Get(r)).name && (r.Entry? ==> root == old(root))
    {
      target := CreateFile(r, ch, lo);
      was := disk;
      Opened(ch);
      hide DirAt, DirNeed, Extent, BlocksFor, Room;
      Put(target, f);
    }

    /** write_file: the file becomes the next child of the directory r. */
    method WriteFile(r: Ref, name: string, bytes: seq<nat>, ghost ch: seq<Node>, ghost lo: nat)
      requires Holds(r, ch, BlocksFor(|ch|), lo) && GoodNode(Leaf(name, bytes))
      requires nextbno + Room(|ch|) + Need(Leaf(name, bytes)) <= NBLOCK
      modifies this
      ensures Holds(r, ch + [Leaf(name, bytes)], BlocksFor(|ch| + 1), lo)
      ensures SameBelow(old(disk), disk, lo, r) && Get(r).name == old(Get(r)).name
      ensures r.Entry? ==> root == old(root)
    {
      ghost var was;
      var target;
      target, was := NewEntry(r, Blank().(name := name, size := |bytes|), ch, lo);
      hide DirAt, DirNeed, Extent, BlocksFor, Room;
      ghost var d0, root0, start := disk, root, nextbno;
      WriteData(target, bytes, start);
      LeafDone(disk, Get(target), name, bytes, start);
      BelowTrans(was, d0, disk, start, target);
      Finish(was, disk, Get(r), ch, Leaf(name, bytes), lo, target, start, r);
      BelowTrans(old(disk), was, disk, lo, r);
    }

    /** The reading loop of write_file. */
    method WriteData(target: Ref, bytes: seq<nat>, ghost start: nat)
      requires Valid() && target.Entry? && RefOk(disk, target, start) && nextbno == start
      requires Get(target).direct == Pointers() && Get(target).indirect == 0
      requires start + LeafNeed(Chunks(|bytes|)) <= NBLOCK
      modifies this
      ensures Valid() && RefOk(disk, target, start) && SameBelow(old(disk), disk, start, target) && root == old(root)
      ensures LeafAt(disk, Get(target), bytes, start, Chunks(|bytes|)) && nextbno == start + LeafNeed(Chunks(|bytes|))
      ensures Get(target).name == old(Get(target)).name && Get(target).size == old(Get(target)).size
      ensures Get(target).dir == old(Get(target)).dir
    {
      hide LeafAt;
      LeafStart(disk, Get(target), bytes, start);
      var c := 0;
      while c * BLOCK_SIZE < |bytes|
        invariant c <= Chunks(|bytes|) && nextbno == start + LeafNeed(c)
        invariant Valid() && RefOk(disk, target, start) && SameBelow(old(disk), disk, start, target)
        invariant root == old(root)
        invariant Get(target).name == old(Get(target)).name && Get(target).size == old(Get(target)).size
        invariant Get(target).dir == old(Get(target)).dir
        invariant LeafAt(disk, Get(target), bytes, start, c)
      {
        ghost var m := disk;
        WriteChunk(target, bytes, c, start);
        BelowTrans(old(disk), m, disk, start, target);
        c := c + 1;
      }
    }

    /** write_directory: the directory, with all that is in it, becomes the next child of r. */
    method WriteDirectory(r: Ref, name: string, children: seq<Node>, ghost ch: seq<Node>, ghost lo: nat)
      requires Holds(r, ch, BlocksFor(|ch|), lo) && GoodNode(Dir(name, children))
      requires nextbno + Room(|ch|) + Need(Dir(name, children)) <= NBLOCK
      modifies this
      ensures Holds(r, ch + [Dir(name, children)], BlocksFor(|ch| + 1), lo)
      ensures SameBelow(old(disk), disk, lo, r) && Get(r).name == old(Get(r)).name
      ensures r.Entry? ==> root == old(root)
      decreases children, 1
    {
      ghost var was;
      var target;
      target, was := NewEntry(r, Blank().(name := name, dir := true), ch, lo);
      hide DirAt, DirNeed, Extent, BlocksFor, Room;
      ghost var d0, root0, start := disk, root, nextbno;
      EmptyDir(disk, Get(target), children, start);
      WriteChildren(target, children, start);
      Closed(children);
      DirDone(disk, Get(target), name, children, start);
      BelowTrans(was, d0, disk, start, target);
      Finish(was, disk, Get(r), ch, Dir(name, children), lo, target, start, r);
      BelowTrans(old(disk), was, disk, lo, r);
    }

    /** The loop of write_directory over a directory, and of the main program over its arguments. */
    method WriteChildren(r: Ref, children: seq<Node>, ghost lo: nat)
      requires Holds(r, children[..0], 0, lo) && nextbno == lo && GoodNodes(children)
      requires lo + DirNeed(children) <= NBLOCK
      modifies this
      ensures Holds(r, children, BlocksFor(|children|), lo)
      ensures SameBelow(old(disk), disk, lo, r) && Get(r).name == old(Get(r)).name
      ensures r.Entry? ==> root == old(root)
      decreases children, 0
    {
      hide DirAt, DirNeed, Extent, Room;
      for i := 0 to |children|
        invariant Holds(r, children[..i], BlocksFor(i), lo)
        invariant SameBelow(old(disk), disk, lo, r) && Get(r).name == old(Get(r)).name
        invariant r.Entry? ==> root == old(root)
      {
        ghost var m := disk;
        Fits(children, i);
        assert children[..i] + [children[i]] == children[..i + 1];
        match children[i] {
          case Dir(n, c) => WriteDirectory(r, n, c, children[..i], lo);
          case Leaf(n, b) => WriteFile(r, n, b, children[..i], lo);
        }
        BelowTrans(old(disk), m, disk, lo, r);
      }
      assert children[..|children|] == children;
    }

    /** flush_bitmap: the blocks handed out are no longer free. */
    method FlushBitmap()
      requires Valid() && disk[2].BitmapBlock? && FreeFrom(disk[2].map_, 0)
      modifies this`disk
      ensures Valid() && disk[2].BitmapBlock? && FreeFrom(disk[2].map_, nextbno)
      ensures forall b :: 0 <= b < NBLOCK && b != 2 ==> disk[b] == old(disk[b])
    {
      for i := 0 to nextbno
        invariant Valid() && disk[2].BitmapBlock? && FreeFrom(disk[2].map_, i)
        invariant forall b :: 0 <= b < NBLOCK && b != 2 ==> disk[b] == old(disk[b])
      {
        TakeBlock(disk[2].map_, i);
        disk := disk[2 := BitmapBlock(Clear(disk[2].map_, i))];
      }
    }

    /** The loop of the main program over its arguments, and the bitmap. */
    method WriteAll(args: seq<Node>)
      requires Holds(Root, [], 0, 3) && nextbno == 3 && disk[2].BitmapBlock? && FreeFrom(disk[2].map_, 0)
      requires GoodNodes(args) && 3 + DirNeed(args) <= NBLOCK
      modifies this
      ensures |disk| == NBLOCK && nextbno == 3 + DirNeed(args) && DirAt(disk, root, args, BlocksFor(|args|), 3)
      ensures root.name == old(root.name)
      ensures disk[2].BitmapBlock? && FreeFrom(disk[2].map_, nextbno)
    {
      assert args[..0] == [];
      WriteChildren(Root, args, 3);
      Closed(args);
      ghost var d := disk;
      FlushBitmap();
      DirFrame(d, disk, root, args, BlocksFor(|args|), 3);
    }
  }

  /** A directory with one entry to spare ends after the room for its next child; one without
      ends after its last child. */
  lemma Opened(ch: seq<Node>)
    ensures Extent(ch, |ch| / FILE2BLK + 1) == DirNeed(ch) + Room(|ch|) && Extent(ch, BlocksFor(|ch|)) == DirNeed(ch)
  {
    Closed(ch);
  }

  lemma Closed(ch: seq<Node>)
    ensures Extent(ch, BlocksFor(|ch|)) == DirNeed(ch)
  {
  }

  lemma LeafStart(disk: seq<Block>, f: File, bytes: seq<nat>, lo: nat)
    requires f.direct == Pointers() && f.indirect == 0 && lo <= |disk|
    ensures LeafAt(disk, f, bytes, lo, 0)
  {
  }

  lemma LeafDone(disk: seq<Block>, f: File, name: string, bytes: seq<nat>, lo: nat)
    requires LeafAt(disk, f, bytes, lo, Chunks(|bytes|)) && name != "" && f.name == name && !f.dir && f.size == |bytes|
    ensures FileAt(disk, f, Leaf(name, bytes), lo)
  {
  }

  lemma EmptyDir(disk: seq<Block>, f: File, children: seq<Node>, lo: nat)
    requires f.direct == Pointers() && f.indirect == 0 && f.dir && f.size == 0
    ensures children[..0] == [] && DirAt(disk, f, children[..0], BlocksFor(0), lo)
    ensures Extent(children[..0], BlocksFor(0)) == 0
  {
  }

  lemma DirDone(disk: seq<Block>, f: File, name: string, children: seq<Node>, lo: nat)
    requires DirAt(disk, f, children, BlocksFor(|children|), lo) && name != "" && f.name == name
    ensures FileAt(disk, f, Dir(name, children), lo)
  {
  }

  /** If all children fit, so does the next one. */
  lemma Fits(ch: seq<Node>, i: nat)
    requires i < |ch|
    ensures Extent(ch[..i], BlocksFor(i)) + Room(i) + Need(ch[i]) <= DirNeed(ch)
  {
    Closed(ch[..i]);
    NeedNext(ch, i);
    NeedMono(ch, i + 1, |ch|);
    assert ch[..|ch|] == ch;
  }

  /** The directory f with an unused entry, target, for one more child, whose blocks are to
      start at start. */
  ghost predicate Opening(d: seq<Block>, f: File, ch: seq<Node>, lo: nat, target: Ref, start: nat) {
    && DirAt(d, f, ch, |ch| / FILE2BLK + 1, lo) && 1 <= lo && start == lo + Extent(ch, |ch| / FILE2BLK + 1)
    && target == Entry(EntryBlock(ch, lo, |ch| / FILE2BLK), |ch| % FILE2BLK) && lo <= target.bno
  }

  /** Once the child is there, the directory holds it. */
  lemma Finish(d: seq<Block>, t: seq<Block>, f: File, ch: seq<Node>, node: Node, lo: nat, target: Ref,
      start: nat, r: Ref)
    requires Opening(d, f, ch, lo, target, start) && RefOk(d, r, lo)
    requires SameBelow(d, t, start, target) && FileAt(t, t[target.bno].entries[target.k], node, start)
    ensures DirAt(t, f, ch + [node], BlocksFor(|ch| + 1), lo) && SameBelow(d, t, lo, r)
    ensures start + Need(node) == lo + Extent(ch + [node], BlocksFor(|ch| + 1))
  {
    hide DirAt, FileAt;
    Opened(ch);
    Closed(ch + [node]);
    assert BlocksFor(|ch| + 1) == |ch| / FILE2BLK + 1;
    AddChild(d, t, f, ch, node, |ch| / FILE2BLK + 1, lo);
  }

  lemma FullOrNot(n: nat)
    ensures n % FILE2BLK != 0 ==> BlocksFor(n) == n / FILE2BLK + 1
    ensures n % FILE2BLK == 0 ==> BlocksFor(n) == n / FILE2BLK && n == FILE2BLK * BlocksFor(n)
  {
  }

  /** A full directory on a disk of this size has room for one more block of entries. */
  lemma RoomLeft(disk: seq<Block>, f: File, ch: seq<Node>, lo: nat, next: nat)
    requires DirAt(disk, f, ch, BlocksFor(|ch|), lo) && |ch| % FILE2BLK == 0
    requires next == lo + Extent(ch, BlocksFor(|ch|)) && 1 <= lo && next <= NBLOCK
    ensures f.size / BLOCK_SIZE == BlocksFor(|ch|) < NINDIRECT
  {
    assert ch[..|ch|] == ch;
    NeedBlocks(ch, |ch|);
  }

  lemma OpenEntry(disk: seq<Block>, f: File, ch: seq<Node>, nb: nat, lo: nat)
    requires DirAt(disk, f, ch, nb, lo) && nb == |ch| / FILE2BLK + 1
    ensures var b := EntryBlock(ch, lo, nb - 1);
            && lo <= b < lo + Extent(ch, nb) && b < |disk| && disk[b].FileBlock? && |disk[b].entries| == FILE2BLK
            && disk[b].entries[|ch| % FILE2BLK] == Blank()
  {
    hide FileAt, DirNeed, Need;
    Inside(ch, lo, nb, nb - 1);
    assert EntryAt(disk, ch, lo, nb - 1, |ch| % FILE2BLK);
  }

  /** An entry with a child in it has a name, one without has none. */
  lemma NamesUsed(disk: seq<Block>, ch: seq<Node>, lo: nat, j: nat, e: nat)
    requires FILE2BLK * j <= |ch| && e < FILE2BLK && EntryAt(disk, ch, lo, j, e)
    ensures var b := EntryBlock(ch, lo, j); b < |disk| && disk[b].FileBlock? && |disk[b].entries| == FILE2BLK
    ensures disk[EntryBlock(ch, lo, j)].entries[e].name == "" <==> FILE2BLK * j + e >= |ch|
  {
  }

  lemma {:induction false} NeedBlocks(ch: seq<Node>, n: nat)
    requires n <= |ch|
    ensures DirNeed(ch[..n]) >= BlocksFor(n)
    decreases n
  {
    if n > 0 {
      NeedBlocks(ch, n - 1);
      NeedNext(ch, n - 1);
    }
  }
}
