/** What a formatted image means: read the way fs/fs.c reads it, it is the tree that was
    written, and every block handed out is named by exactly one pointer. */
module FsImage {
  import opened FsLayout
  import opened FsFormat

  // ---------------------------------------------------------------------------
  // Reading an image back

  /** Entry k of a directory, in file order. */
  function EntryOf(disk: seq<Block>, f: File, k: nat): (r: File) {
    var b := Walk(disk, f, k / FILE2BLK);
    if b < |disk| && disk[b].FileBlock? && k % FILE2BLK < |disk[b].entries| then disk[b].entries[k % FILE2BLK]
    else Blank()
  }

  /** The file f on the disk is the node: its bytes are found through its pointers, or its used
      entries are its children in order; and no pointer is set past its size. */
  ghost predicate Reads(disk: seq<Block>, f: File, node: Node)
    decreases node
  {
    && f.name == node.name && f.dir == node.Dir?
    && (forall i: nat :: i >= Chunks(f.size) ==> Walk(disk, f, i) == 0)
    && match node
       case Leaf(_, bytes) => f.size == |bytes| && forall p: nat :: p < |bytes| ==> ByteAt(disk, f, p, bytes[p])
       case Dir(_, ch) =>
         && f.size % BLOCK_SIZE == 0 && |ch| <= FILE2BLK * (f.size / BLOCK_SIZE)
         && (forall k: nat :: k < |ch| ==> Reads(disk, EntryOf(disk, f, k), ch[k]) && ch[k].name != "")
         && (forall k: nat :: |ch| <= k < FILE2BLK * (f.size / BLOCK_SIZE) ==> EntryOf(disk, f, k).name == "")
  }

  ghost predicate ByteAt(disk: seq<Block>, f: File, p: nat, x: nat) {
    var b := Walk(disk, f, p / BLOCK_SIZE);
    b < |disk| && disk[b].DataBlock? && |disk[b].bytes| == BLOCK_SIZE && disk[b].bytes[p % BLOCK_SIZE] == x
  }

  lemma LeafReads(disk: seq<Block>, f: File, bytes: seq<nat>, lo: nat, p: nat)
    requires LeafAt(disk, f, bytes, lo, Chunks(|bytes|)) && p < |bytes|
    ensures ByteAt(disk, f, p, bytes[p])
  {
    var c := p / BLOCK_SIZE;
    assert c < Chunks(|bytes|);
    assert c * BLOCK_SIZE + p % BLOCK_SIZE == p;
    assert disk[ChunkBlock(lo, c)] == DataBlock(Chunk(bytes, c));
  }

  lemma WalkDir(disk: seq<Block>, f: File, ch: seq<Node>, nb: nat, lo: nat, j: nat)
    requires LinksAt(disk, f, ch, nb, lo)
    ensures Walk(disk, f, j) == if j < nb then EntryBlock(ch, lo, j) else 0
  {
  }

  lemma EntryIs(disk: seq<Block>, f: File, ch: seq<Node>, nb: nat, lo: nat, k: nat)
    requires DirAt(disk, f, ch, nb, lo) && k < FILE2BLK * nb
    ensures k < |ch| ==> FileAt(disk, EntryOf(disk, f, k), ch[k], ChildStart(ch, lo, k))
    ensures k >= |ch| ==> EntryOf(disk, f, k) == Blank()
  {
    hide FileAt;
    WalkDir(disk, f, ch, nb, lo, k / FILE2BLK);
    assert EntryAt(disk, ch, lo, k / FILE2BLK, k % FILE2BLK);
  }

  /** Whatever is laid out as the image of a tree reads back as that tree. */
  lemma {:induction false} ReadsBack(disk: seq<Block>, f: File, node: Node, lo: nat)
    requires FileAt(disk, f, node, lo)
    ensures Reads(disk, f, node)
    decreases node
  {
    match node
    case Leaf(_, bytes) =>
      forall p: nat | p < |bytes| ensures ByteAt(disk, f, p, bytes[p]) { LeafReads(disk, f, bytes, lo, p); }
    case Dir(_, ch) =>
      var nb := BlocksFor(|ch|);
      forall i: nat ensures i >= nb ==> Walk(disk, f, i) == 0 { WalkDir(disk, f, ch, nb, lo, i); }
      forall k: nat | k < |ch| ensures Reads(disk, EntryOf(disk, f, k), ch[k]) && ch[k].name != "" {
        EntryIs(disk, f, ch, nb, lo, k);
        ReadsBack(disk, EntryOf(disk, f, k), ch[k], ChildStart(ch, lo, k));
      }
      forall k: nat | |ch| <= k < FILE2BLK * nb ensures EntryOf(disk, f, k).name == "" {
        EntryIs(disk, f, ch, nb, lo, k);
      }
  }

  // ---------------------------------------------------------------------------
  // Every block is named once

  /** The blocks lo..hi, each once. */
  ghost function Range(lo: nat, hi: nat): (r: multiset<nat>) {
    if hi <= lo then multiset{} else Range(lo, hi - 1) + multiset{hi - 1}
  }

  lemma {:induction false} RangeCount(lo: nat, hi: nat, b: nat)
    ensures Range(lo, hi)[b] == if lo <= b < hi then 1 else 0
    decreases hi
  {
    if lo < hi { RangeCount(lo, hi - 1, b); }
  }

  lemma {:induction false} RangeJoin(a: nat, b: nat, c: nat)
    requires a <= b <= c
    ensures Range(a, b) + Range(b, c) == Range(a, c)
    decreases c
  {
    if b < c { RangeJoin(a, b, c - 1); }
  }

  lemma RangeNext(lo: nat, hi: nat)
    requires lo <= hi
    ensures Range(lo, hi + 1) == Range(lo, hi) + multiset{hi} && Range(lo, lo) == multiset{}
  {
  }

  /** The pointers to blocks 0..n of a file. */
  ghost function Walked(disk: seq<Block>, f: File, n: nat): (r: multiset<nat>) {
    if n == 0 then multiset{} else Walked(disk, f, n - 1) + multiset{Walk(disk, f, n - 1)}
  }

  /** With the pointer to the index block. */
  ghost function Own(disk: seq<Block>, f: File, n: nat): (r: multiset<nat>) {
    Walked(disk, f, n) + if n > NDIRECT then multiset{f.indirect} else multiset{}
  }

  lemma OwnNext(disk: seq<Block>, f: File, n: nat)
    ensures n != NDIRECT ==> Own(disk, f, n + 1) == Own(disk, f, n) + multiset{Walk(disk, f, n)}
    ensures n == NDIRECT ==> Own(disk, f, n + 1) == Own(disk, f, n) + multiset{Walk(disk, f, n)} + multiset{f.indirect}
  {
    hide Walk;
    assert Walked(disk, f, n + 1) == Walked(disk, f, n) + multiset{Walk(disk, f, n)};
  }

  /** All pointers in the image of a node, its own and those of everything below it. */
  ghost function Named(disk: seq<Block>, f: File, node: Node): (r: multiset<nat>)
    decreases node
  {
    Own(disk, f, Chunks(f.size)) + if node.Dir? then NamedBelow(disk, f, node.children) else multiset{}
  }

  ghost function NamedBelow(disk: seq<Block>, f: File, ch: seq<Node>): (r: multiset<nat>)
    decreases ch
  {
    if ch == [] then multiset{}
    else NamedBelow(disk, f, ch[..|ch| - 1]) + Named(disk, EntryOf(disk, f, |ch| - 1), ch[|ch| - 1])
  }

  lemma WalkLeaf(disk: seq<Block>, f: File, bytes: seq<nat>, lo: nat, c: nat, i: nat)
    requires LeafAt(disk, f, bytes, lo, c) && i < c
    ensures Walk(disk, f, i) == ChunkBlock(lo, i) && (c > NDIRECT ==> f.indirect == lo + NDIRECT + 1)
  {
  }

  /** Chunk c goes to the next block, and chunk ten takes the index block with it. */
  lemma NextChunk(lo: nat, c: nat)
    ensures ChunkBlock(lo, c) == lo + LeafNeed(c)
    ensures LeafNeed(c + 1) == LeafNeed(c) + if c == NDIRECT then 2 else 1
    ensures c == NDIRECT ==> LeafNeed(c) == NDIRECT
  {
  }

  lemma {:induction false} LeafNamed(disk: seq<Block>, f: File, bytes: seq<nat>, lo: nat, c: nat, n: nat)
    requires LeafAt(disk, f, bytes, lo, c) && n <= c
    ensures Own(disk, f, n) == Range(lo, lo + LeafNeed(n))
    decreases n
  {
    hide LeafAt, Walk, Own, Range;
    if n == 0 {
      NothingNamed(disk, f, lo);
    } else {
      LeafNamed(disk, f, bytes, lo, c, n - 1);
      WalkLeaf(disk, f, bytes, lo, c, n - 1);
      NextChunk(lo, n - 1);
      OwnChunk(disk, f, lo, n - 1, lo + LeafNeed(n - 1));
    }
  }

  lemma OwnChunk(disk: seq<Block>, f: File, lo: nat, n: nat, hi: nat)
    requires lo <= hi && Own(disk, f, n) == Range(lo, hi) && Walk(disk, f, n) == hi
    requires (n == NDIRECT ==> f.indirect == hi + 1)
    ensures Own(disk, f, n + 1) == Range(lo, hi + if n == NDIRECT then 2 else 1)
  {
    hide Walk, Own, Range;
    OwnNext(disk, f, n);
    RangeNext(lo, hi);
    RangeNext(lo, hi + 1);
  }

  /** The first m children of a directory, with the blocks of entries they are in. */
  lemma {:induction false} DirNamed(disk: seq<Block>, f: File, ch: seq<Node>, lo: nat, m: nat)
    requires DirAt(disk, f, ch, BlocksFor(|ch|), lo) && m <= |ch|
    ensures Own(disk, f, BlocksFor(m)) + NamedBelow(disk, f, ch[..m]) == Range(lo, lo + DirNeed(ch[..m]))
    decreases ch, m
  {
    hide DirAt, Own, Range, Room;
    if m == 0 {
      NothingNamed(disk, f, lo);
    } else {
      var k := m - 1;
      DirNamed(disk, f, ch, lo, k);
      ChildNamed(disk, f, ch, lo, k);
      NeedNext(ch, k);
      assert ch[..m][..k] == ch[..k];
      OwnGrows(disk, f, ch, lo, k);
      var a := lo + DirNeed(ch[..k]);
      RangeJoin(lo, a, a + Room(k));
      RangeJoin(lo, a + Room(k), a + Room(k) + Need(ch[k]));
    }
  }

  lemma NothingNamed(disk: seq<Block>, f: File, lo: nat)
    ensures Own(disk, f, BlocksFor(0)) == multiset{} && Range(lo, lo) == multiset{}
  {
  }

  lemma {:induction false} ChildNamed(disk: seq<Block>, f: File, ch: seq<Node>, lo: nat, k: nat)
    requires DirAt(disk, f, ch, BlocksFor(|ch|), lo) && k < |ch|
    ensures Named(disk, EntryOf(disk, f, k), ch[k]) == Range(ChildStart(ch, lo, k), ChildStart(ch, lo, k) + Need(ch[k]))
    decreases ch, 0
  {
    hide Named, Range, FileAt;
    EntryIs(disk, f, ch, BlocksFor(|ch|), lo, k);
    FileNamed(disk, EntryOf(disk, f, k), ch[k], ChildStart(ch, lo, k));
  }

  /** The pointers set to make room for child k. */
  lemma OwnGrows(disk: seq<Block>, f: File, ch: seq<Node>, lo: nat, k: nat)
    requires DirAt(disk, f, ch, BlocksFor(|ch|), lo) && k < |ch|
    ensures var a := lo + DirNeed(ch[..k]);
            Own(disk, f, BlocksFor(k + 1)) == Own(disk, f, BlocksFor(k)) + Range(a, a + Room(k))
  {
    hide DirAt, DirNeed, Walk, Own, Range;
    var a := lo + DirNeed(ch[..k]);
    RangeNext(a, a);
    if k % FILE2BLK == 0 {
      OwnBlock(disk, f, ch, lo, k / FILE2BLK);
    }
  }

  lemma OwnBlock(disk: seq<Block>, f: File, ch: seq<Node>, lo: nat, j: nat)
    requires DirAt(disk, f, ch, BlocksFor(|ch|), lo) && FILE2BLK * j < |ch|
    ensures var a := EntryBlock(ch, lo, j);
            Own(disk, f, j + 1) == Own(disk, f, j) + Range(a, a + if j == NDIRECT then 2 else 1)
  {
    hide DirAt, Walk, Own, Range;
    var a := EntryBlock(ch, lo, j);
    hide EntryBlock;
    LinkIs(disk, f, ch, lo, j);
    OwnNext(disk, f, j);
    RangeNext(a, a);
    RangeNext(a, a + 1);
  }

  lemma LinkIs(disk: seq<Block>, f: File, ch: seq<Node>, lo: nat, j: nat)
    requires DirAt(disk, f, ch, BlocksFor(|ch|), lo) && FILE2BLK * j < |ch|
    ensures Walk(disk, f, j) == EntryBlock(ch, lo, j) && (j == NDIRECT ==> f.indirect == EntryBlock(ch, lo, j) + 1)
  {
    hide FileAt, EntryAt, DirNeed;
    WalkDir(disk, f, ch, BlocksFor(|ch|), lo, j);
  }

  lemma {:induction false} FileNamed(disk: seq<Block>, f: File, node: Node, lo: nat)
    requires FileAt(disk, f, node, lo)
    ensures Named(disk, f, node) == Range(lo, lo + Need(node))
    decreases node
  {
    hide LeafAt, Own, Range;
    match node
    case Leaf(_, bytes) => LeafNamed(disk, f, bytes, lo, Chunks(|bytes|), Chunks(|bytes|));
    case Dir(_, ch) =>
      DirNamed(disk, f, ch, lo, |ch|);
      assert ch[..|ch|] == ch;
      assert Chunks(f.size) == BlocksFor(|ch|);
  }

  // ---------------------------------------------------------------------------
  // The whole program

  /** In the image of a node each of its blocks is named once and no other block at all. */
  lemma NamedOnce(disk: seq<Block>, f: File, node: Node, lo: nat, b: nat)
    requires FileAt(disk, f, node, lo)
    ensures Named(disk, f, node)[b] == if lo <= b < lo + Need(node) then 1 else 0
  {
    FileNamed(disk, f, node, lo);
    RangeCount(lo, lo + Need(node), b);
  }

  lemma ImageOfAll(disk: seq<Block>, root: File, args: seq<Node>, node: Node)
    requires DirAt(disk, root, args, BlocksFor(|args|), 3) && root.name == "/" && node == Dir("/", args)
    ensures Reads(disk, root, node)
    ensures forall b: nat :: Named(disk, root, node)[b] == if 3 <= b < 3 + DirNeed(args) then 1 else 0
  {
    DirDone(disk, root, "/", args, 3);
    assert Need(node) == DirNeed(args);
    hide Reads, Named, FileAt, DirAt, Need, DirNeed;
    ReadsBack(disk, root, node, 3);
    forall b: nat ensures Named(disk, root, node)[b] == if 3 <= b < 3 + DirNeed(args) then 1 else 0 {
      NamedOnce(disk, root, node, 3, b);
    }
  }

  /** fsformat on any list of files and directories that fits on the disk: the image reads back
      as what was given, each block handed out is named by exactly one pointer and no other
      block by any, and the bitmap has exactly the others free. */
  method Format(args: seq<Node>) returns (disk: seq<Block>, root: File, next: nat)
    requires GoodNodes(args) && 3 + DirNeed(args) <= NBLOCK
    ensures |disk| == NBLOCK && next == 3 + DirNeed(args)
    ensures Reads(disk, root, Dir("/", args))
    ensures forall b: nat :: Named(disk, root, Dir("/", args))[b] == if 3 <= b < next then 1 else 0
    ensures disk[2].BitmapBlock? && FreeFrom(disk[2].map_, next)
  {
    var fmt := new Formatter();
    fmt.WriteAll(args);
    disk, root, next := fmt.disk, fmt.root, fmt.nextbno;
    ImageOfAll(disk, root, args, Dir("/", args));
  }
}
