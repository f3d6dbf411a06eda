/** Where tools/fsformat.c puts things: blocks are handed out in order, so the place of every
    block of a file or directory follows from the tree and the first block it may use.  These
    definitions say what an image that holds a tree looks like. */
module FsLayout {
  import opened Bitmap

  const BLOCK_SIZE: nat := 4096
  const NBLOCK: nat := 1024
  const NDIRECT: nat := 10
  const NINDIRECT: nat := 1024
  const FILE2BLK: nat := 16

  datatype File = File(name: string, size: nat, dir: bool, direct: seq<nat>, indirect: nat)

  /** A block with its type; FILE blocks hold directory entries, INDEX blocks pointers. */
  datatype Block =
    | FreeBlock
    | BootBlock
    | SuperBlock
    | BitmapBlock(map_: seq<Word>)
    | DataBlock(bytes: seq<nat>)
    | FileBlock(entries: seq<File>)
    | IndexBlock(words: seq<nat>)

  /** What is written: a regular file or a directory with what is in it. */
  datatype Node = Leaf(name: string, bytes: seq<nat>) | Dir(name: string, children: seq<Node>)

  function Pointers(): (r: seq<nat>)
    ensures |r| == NDIRECT && forall j :: 0 <= j < NDIRECT ==> r[j] == 0
  {
    seq(NDIRECT, _ => 0)
  }

  function Words(): (r: seq<nat>)
    ensures |r| == NINDIRECT && forall j :: 0 <= j < NINDIRECT ==> r[j] == 0
  {
    seq(NINDIRECT, _ => 0)
  }

  function Blank(): (r: File) { File("", 0, false, Pointers(), 0) }

  function Blanks(): (r: seq<File>)
    ensures |r| == FILE2BLK && forall e :: 0 <= e < FILE2BLK ==> r[e] == Blank()
  {
    seq(FILE2BLK, _ => Blank())
  }

  /** The pointer to block i of a file, as create_file and file_block_walk find it; 0 is none. */
  function Walk(disk: seq<Block>, f: File, i: nat): (r: nat) {
    if i < NDIRECT then (if i < |f.direct| then f.direct[i] else 0)
    else if i < NINDIRECT && 0 < f.indirect < |disk| && disk[f.indirect].IndexBlock? && i < |disk[f.indirect].words|
      then disk[f.indirect].words[i]
    else 0
  }

  // ---------------------------------------------------------------------------
  // How many blocks

  function Chunks(n: nat): (r: nat) { (n + BLOCK_SIZE - 1) / BLOCK_SIZE }

  function LeafNeed(chunks: nat): (r: nat) { if chunks > NDIRECT then chunks + 1 else chunks }

  /** Blocks taken to make room for child k: one when a block of entries is full, and one more
      for the index block when the eleventh is linked. */
  function Room(k: nat): (r: nat) {
    if k % FILE2BLK == 0 then (if k / FILE2BLK == NDIRECT then 2 else 1) else 0
  }

  function Need(node: Node): (r: nat)
    decreases node
  {
    match node
    case Leaf(_, bytes) => LeafNeed(Chunks(|bytes|))
    case Dir(_, children) => DirNeed(children)
  }

  function DirNeed(ch: seq<Node>): (r: nat)
    decreases ch
  {
    if ch == [] then 0 else DirNeed(ch[..|ch| - 1]) + Room(|ch| - 1) + Need(ch[|ch| - 1])
  }

  lemma NeedNext(ch: seq<Node>, k: nat)
    requires k < |ch|
    ensures DirNeed(ch[..k + 1]) == DirNeed(ch[..k]) + Room(k) + Need(ch[k])
  {
    assert ch[..k + 1][..k] == ch[..k];
  }

  lemma {:induction false} NeedMono(ch: seq<Node>, a: nat, b: nat)
    requires a <= b <= |ch|
    ensures DirNeed(ch[..a]) <= DirNeed(ch[..b])
    decreases b
  {
    if a < b {
      NeedMono(ch, a, b - 1);
      NeedNext(ch, b - 1);
    }
  }

  // ---------------------------------------------------------------------------
  // An image of a file

  /** Chunk c of a file, filled up with zeros. */
  function Chunk(bytes: seq<nat>, c: nat): (r: seq<nat>)
    ensures |r| == BLOCK_SIZE
  {
    seq(BLOCK_SIZE, (k: nat) => if c * BLOCK_SIZE + k < |bytes| then bytes[c * BLOCK_SIZE + k] else 0)
  }

  /** The block of chunk c of a file that starts at lo: after chunk ten comes the index block. */
  function ChunkBlock(lo: nat, c: nat): (r: nat) { if c <= NDIRECT then lo + c else lo + c + 1 }

  /** The first c chunks of a file are in place. */
  ghost predicate LeafAt(disk: seq<Block>, f: File, bytes: seq<nat>, lo: nat, c: nat) {
    && |f.direct| == NDIRECT && lo + LeafNeed(c) <= |disk|
    && (forall j :: 0 <= j < NDIRECT ==> f.direct[j] == if j < c then ChunkBlock(lo, j) else 0)
    && (forall j :: 0 <= j < c ==> disk[ChunkBlock(lo, j)] == DataBlock(Chunk(bytes, j)))
    && f.indirect == (if c > NDIRECT then lo + NDIRECT + 1 else 0)
    && (c > NDIRECT ==>
          var x := disk[f.indirect];
          x.IndexBlock? && |x.words| == NINDIRECT && c <= NINDIRECT &&
          forall j :: 0 <= j < NINDIRECT ==> x.words[j] == if NDIRECT <= j < c then ChunkBlock(lo, j) else 0)
  }

  // ---------------------------------------------------------------------------
  // An image of a directory

  /** The j-th block of entries of a directory that starts at lo. */
  function EntryBlock(ch: seq<Node>, lo: nat, j: nat): (r: nat)
    requires FILE2BLK * j <= |ch|
  {
    lo + DirNeed(ch[..FILE2BLK * j])
  }

  /** Where the contents of child k start. */
  function ChildStart(ch: seq<Node>, lo: nat, k: nat): (r: nat)
    requires k < |ch|
  {
    lo + DirNeed(ch[..k]) + Room(k)
  }

  /** The directory has nb blocks of entries: as many as its children fill, or one to spare. */
  predicate BlockCount(n: nat, nb: nat) {
    (nb == 0 ==> n == 0) && (nb > 0 ==> FILE2BLK * (nb - 1) <= n <= FILE2BLK * nb)
  }

  ghost predicate FileAt(disk: seq<Block>, f: File, node: Node, lo: nat)
    decreases node
  {
    match node
    case Leaf(name, bytes) =>
      name != "" && f.name == name && !f.dir && f.size == |bytes| && LeafAt(disk, f, bytes, lo, Chunks(|bytes|))
    case Dir(name, children) =>
      name != "" && f.name == name && DirAt(disk, f, children, (|children| + FILE2BLK - 1) / FILE2BLK, lo)
  }

  /** The pointers of a directory. */
  ghost predicate LinksAt(disk: seq<Block>, f: File, ch: seq<Node>, nb: nat, lo: nat) {
    && BlockCount(|ch|, nb) && nb <= NINDIRECT
    && f.dir && f.size == BLOCK_SIZE * nb && |f.direct| == NDIRECT
    && (forall j :: 0 <= j < NDIRECT ==> f.direct[j] == if j < nb then EntryBlock(ch, lo, j) else 0)
    && f.indirect == (if nb > NDIRECT then EntryBlock(ch, lo, NDIRECT) + 1 else 0)
    && (nb > NDIRECT ==>
          f.indirect < |disk| &&
          var x := disk[f.indirect];
          x.IndexBlock? && |x.words| == NINDIRECT &&
          forall j :: 0 <= j < NINDIRECT ==> x.words[j] == if NDIRECT <= j < nb then EntryBlock(ch, lo, j) else 0)
  }

  ghost predicate DirAt(disk: seq<Block>, f: File, ch: seq<Node>, nb: nat, lo: nat)
    decreases ch, 1
  {
    && LinksAt(disk, f, ch, nb, lo)
    && forall j: nat, e: nat :: j < nb && e < FILE2BLK ==> EntryAt(disk, ch, lo, j, e)
  }

  /** Entry e of block j: the child with that number, or unused. */
  ghost predicate EntryAt(disk: seq<Block>, ch: seq<Node>, lo: nat, j: nat, e: nat)
    requires FILE2BLK * j <= |ch| && e < FILE2BLK
    decreases ch, 0
  {
    var b, k := EntryBlock(ch, lo, j), FILE2BLK * j + e;
    && b < |disk| && disk[b].FileBlock? && |disk[b].entries| == FILE2BLK
    && if k < |ch| then FileAt(disk, disk[b].entries[e], ch[k], ChildStart(ch, lo, k))
       else disk[b].entries[e] == Blank()
  }

  /** The last block such a directory uses. */
  function Extent(ch: seq<Node>, nb: nat): (r: nat) {
    DirNeed(ch) + (if nb > 0 && |ch| == FILE2BLK * (nb - 1) then Room(|ch|) else 0)
  }

  // ---------------------------------------------------------------------------
  // An image depends on its own blocks only

  ghost predicate Same(d: seq<Block>, t: seq<Block>, lo: nat, hi: nat) {
    |d| == |t| && forall b :: lo <= b < hi && b < |d| ==> t[b] == d[b]
  }

  lemma LeafFrame(d: seq<Block>, t: seq<Block>, f: File, bytes: seq<nat>, lo: nat, c: nat)
    requires LeafAt(d, f, bytes, lo, c) && Same(d, t, lo, lo + LeafNeed(c))
    ensures LeafAt(t, f, bytes, lo, c)
  {
  }

  /** Every block of a directory lies between its first block and its extent. */
  lemma Inside(ch: seq<Node>, lo: nat, nb: nat, j: nat)
    requires BlockCount(|ch|, nb) && j < nb
    ensures lo <= EntryBlock(ch, lo, j) && EntryBlock(ch, lo, j) + Room(FILE2BLK * j) <= lo + Extent(ch, nb)
  {
    var k := FILE2BLK * j;
    assert ch[..|ch|] == ch;
    NeedMono(ch, k, |ch|);
    if k < |ch| {
      NeedNext(ch, k);
      NeedMono(ch, k + 1, |ch|);
    }
  }

  lemma ChildInside(ch: seq<Node>, lo: nat, nb: nat, k: nat)
    requires k < |ch|
    ensures lo <= ChildStart(ch, lo, k) && ChildStart(ch, lo, k) + Need(ch[k]) <= lo + Extent(ch, nb)
  {
    assert ch[..|ch|] == ch;
    NeedNext(ch, k);
    NeedMono(ch, k + 1, |ch|);
  }

  lemma {:induction false} FileFrame(d: seq<Block>, t: seq<Block>, f: File, node: Node, lo: nat)
    requires FileAt(d, f, node, lo) && Same(d, t, lo, lo + Need(node))
    ensures FileAt(t, f, node, lo)
    decreases node
  {
    match node
    case Leaf(_, bytes) => LeafFrame(d, t, f, bytes, lo, Chunks(|bytes|));
    case Dir(_, ch) =>
      DirFrame(d, t, f, ch, (|ch| + FILE2BLK - 1) / FILE2BLK, lo);
  }

  lemma LinksFrame(d: seq<Block>, t: seq<Block>, f: File, ch: seq<Node>, nb: nat, lo: nat)
    requires LinksAt(d, f, ch, nb, lo) && Same(d, t, lo, lo + Extent(ch, nb))
    ensures LinksAt(t, f, ch, nb, lo)
  {
    if nb > NDIRECT {
      Inside(ch, lo, nb, NDIRECT);
    }
  }

  lemma {:induction false} DirFrame(d: seq<Block>, t: seq<Block>, f: File, ch: seq<Node>, nb: nat, lo: nat)
    requires DirAt(d, f, ch, nb, lo) && Same(d, t, lo, lo + Extent(ch, nb))
    ensures DirAt(t, f, ch, nb, lo)
    decreases ch, 1
  {
    LinksFrame(d, t, f, ch, nb, lo);
    forall j: nat, e: nat | j < nb && e < FILE2BLK ensures EntryAt(t, ch, lo, j, e) {
      EntryFrame(d, t, ch, nb, lo, j, e);
    }
  }

  lemma {:induction false} EntryFrame(d: seq<Block>, t: seq<Block>, ch: seq<Node>, nb: nat, lo: nat, j: nat, e: nat)
    requires BlockCount(|ch|, nb) && j < nb && e < FILE2BLK
    requires EntryAt(d, ch, lo, j, e) && Same(d, t, lo, lo + Extent(ch, nb))
    ensures EntryAt(t, ch, lo, j, e)
    decreases ch, 0
  {
    Inside(ch, lo, nb, j);
    var b, k := EntryBlock(ch, lo, j), FILE2BLK * j + e;
    if k < |ch| {
      ChildInside(ch, lo, nb, k);
      FileFrame(d, t, d[b].entries[e], ch[k], ChildStart(ch, lo, k));
    }
  }

  // ---------------------------------------------------------------------------
  // Growing a directory

  /** A block of entries and the contents of a child never overlap. */
  lemma EntriesApart(ch: seq<Node>, lo: nat, j: nat, k: nat)
    requires FILE2BLK * j <= |ch| && k < |ch|
    ensures var b, s := EntryBlock(ch, lo, j), ChildStart(ch, lo, k); b < s || s + Need(ch[k]) <= b
  {
    var m := FILE2BLK * j;
    if k < m {
      NeedNext(ch, k);
      NeedMono(ch, k + 1, m);
    } else {
      NeedMono(ch, m, k);
      if k > m {
        NeedNext(ch, m);
        NeedMono(ch, m + 1, k);
      }
    }
  }

  lemma BlocksAscend(ch: seq<Node>, lo: nat, i: nat, j: nat)
    requires i < j && FILE2BLK * j <= |ch|
    ensures EntryBlock(ch, lo, i) < EntryBlock(ch, lo, j)
  {
    NeedNext(ch, FILE2BLK * i);
    NeedMono(ch, FILE2BLK * i + 1, FILE2BLK * j);
  }

  /** t is d with entry e of block b replaced, up to hi. */
  ghost predicate SameBut(d: seq<Block>, t: seq<Block>, lo: nat, hi: nat, b: nat, e: nat)
  {
    && |d| == |t| && b < |d| && e < FILE2BLK
    && (forall c :: lo <= c < hi && c < |d| && c != b ==> t[c] == d[c])
    && d[b].FileBlock? && t[b].FileBlock? && |d[b].entries| == FILE2BLK
    && t[b].entries == d[b].entries[e := if |t[b].entries| == FILE2BLK then t[b].entries[e] else Blank()]
  }

  lemma PrefixNeed(ch: seq<Node>, node: Node, k: nat)
    requires k <= |ch|
    ensures (ch + [node])[..k] == ch[..k]
  {
  }

  lemma OldEntry(d: seq<Block>, t: seq<Block>, ch: seq<Node>, node: Node, nb: nat, lo: nat, j: nat, e: nat)
    requires nb == |ch| / FILE2BLK + 1 && j < nb && e < FILE2BLK && FILE2BLK * j + e != |ch|
    requires EntryAt(d, ch, lo, j, e)
    requires SameBut(d, t, lo, lo + Extent(ch, nb), EntryBlock(ch, lo, nb - 1), |ch| % FILE2BLK)
    ensures EntryAt(t, ch + [node], lo, j, e)
  {
    hide FileAt, DirNeed, Need;
    var b, k, ch2 := EntryBlock(ch, lo, j), FILE2BLK * j + e, ch + [node];
    PrefixNeed(ch, node, FILE2BLK * j);
    Inside(ch, lo, nb, j);
    if j < nb - 1 { BlocksAscend(ch, lo, j, nb - 1); }
    assert t[b].entries[e] == d[b].entries[e];
    if k < |ch| {
      PrefixNeed(ch, node, k);
      ChildInside(ch, lo, nb, k);
      EntriesApart(ch, lo, nb - 1, k);
      FileFrame(d, t, d[b].entries[e], ch[k], ChildStart(ch, lo, k));
    }
  }

  lemma LinksAdd(d: seq<Block>, t: seq<Block>, f: File, ch: seq<Node>, node: Node, nb: nat, lo: nat)
    requires LinksAt(d, f, ch, nb, lo) && nb == |ch| / FILE2BLK + 1
    requires SameBut(d, t, lo, lo + Extent(ch, nb), EntryBlock(ch, lo, nb - 1), |ch| % FILE2BLK)
    ensures LinksAt(t, f, ch + [node], nb, lo)
  {
    forall j: nat | j < nb ensures (ch + [node])[..FILE2BLK * j] == ch[..FILE2BLK * j] {
      PrefixNeed(ch, node, FILE2BLK * j);
    }
    if nb > NDIRECT {
      Inside(ch, lo, nb, NDIRECT);
      Inside(ch, lo, nb, nb - 1);
    }
  }

  /** A child written into the first unused entry is the directory's next child. */
  lemma AddChild(d: seq<Block>, t: seq<Block>, f: File, ch: seq<Node>, node: Node, nb: nat, lo: nat)
    requires DirAt(d, f, ch, nb, lo) && nb == |ch| / FILE2BLK + 1
    requires SameBut(d, t, lo, lo + Extent(ch, nb), EntryBlock(ch, lo, nb - 1), |ch| % FILE2BLK)
    requires FileAt(t, t[EntryBlock(ch, lo, nb - 1)].entries[|ch| % FILE2BLK], node, lo + DirNeed(ch) + Room(|ch|))
    ensures DirAt(t, f, ch + [node], nb, lo)
    ensures DirNeed(ch + [node]) == DirNeed(ch) + Room(|ch|) + Need(node)
  {
    hide FileAt, LinksAt, Need, Room;
    var ch2 := ch + [node];
    assert ch2[..|ch|] == ch;
    LinksAdd(d, t, f, ch, node, nb, lo);
    forall j: nat, e: nat | j < nb && e < FILE2BLK ensures EntryAt(t, ch2, lo, j, e) {
      if FILE2BLK * j + e == |ch| {
        PrefixNeed(ch, node, FILE2BLK * j);
      } else {
        OldEntry(d, t, ch, node, nb, lo, j, e);
      }
    }
  }

  /** One more block of entries for a full directory. */
  lemma AddBlock(d: seq<Block>, t: seq<Block>, f: File, g: File, ch: seq<Node>, nb: nat, lo: nat)
    requires DirAt(d, f, ch, nb, lo) && |ch| == FILE2BLK * nb && nb < NINDIRECT
    requires Same(d, t, lo, lo + DirNeed(ch)) || (nb > NDIRECT && SameButIndex(d, t, lo, lo + DirNeed(ch), f.indirect))
    requires lo + DirNeed(ch) < |t| && t[lo + DirNeed(ch)] == FileBlock(Blanks())
    requires LinksAt(t, g, ch, nb + 1, lo)
    ensures DirAt(t, g, ch, nb + 1, lo)
  {
    hide FileAt, DirNeed, Need;
    assert ch[..|ch|] == ch;
    forall j: nat, e: nat | j < nb + 1 && e < FILE2BLK ensures EntryAt(t, ch, lo, j, e) {
      if j < nb {
        assert EntryAt(d, ch, lo, j, e);
        if nb > NDIRECT { IndexApart(ch, lo, j, e); Inside(ch, lo, nb, NDIRECT); }
        Inside(ch, lo, nb, j);
        ChildInside(ch, lo, nb, FILE2BLK * j + e);
        FileFrame(d, t, d[EntryBlock(ch, lo, j)].entries[e], ch[FILE2BLK * j + e],
            ChildStart(ch, lo, FILE2BLK * j + e));
      }
    }
  }

  ghost predicate SameButIndex(d: seq<Block>, t: seq<Block>, lo: nat, hi: nat, x: nat) {
    |d| == |t| && forall b :: lo <= b < hi && b < |d| && b != x ==> t[b] == d[b]
  }

  /** The index block of a directory is none of its blocks of entries nor part of a child. */
  lemma IndexApart(ch: seq<Node>, lo: nat, j: nat, e: nat)
    requires FILE2BLK * NDIRECT < |ch| && e < FILE2BLK && FILE2BLK * j + e < |ch|
    ensures var x, k := EntryBlock(ch, lo, NDIRECT) + 1, FILE2BLK * j + e;
            x != EntryBlock(ch, lo, j) && (x < ChildStart(ch, lo, k) || ChildStart(ch, lo, k) + Need(ch[k]) <= x)
  {
    var m, k := FILE2BLK * NDIRECT, FILE2BLK * j + e;
    NeedNext(ch, m);
    if k < m {
      NeedNext(ch, k);
      NeedMono(ch, k + 1, m);
      NeedMono(ch, FILE2BLK * j, m);
    } else {
      NeedMono(ch, m, k);
      if k > m { NeedMono(ch, m + 1, k); }
      if j > NDIRECT { NeedMono(ch, m + 1, FILE2BLK * j); }
    }
  }
}
