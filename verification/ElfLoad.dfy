/** Loading one ELF segment: elf_load_seg of lib/elfloader.c with the mapper of kern/env.c,
    which gives every call a fresh zero page that replaces whatever the address had.  The image a
    segment must have is that of the Program Header section (chapter 5) of the System V ABI. */
module ElfLoad {

  const PAGE: nat := 4096

  datatype Page = Page(bytes: seq<int>, writable: bool)

  /** A zero page with src copied to offset. */
  function Filled(offset: nat, src: seq<int>): (r: seq<int>)
    requires offset + |src| <= PAGE
    ensures |r| == PAGE
    ensures forall k :: 0 <= k < PAGE ==> r[k] == if offset <= k < offset + |src| then src[k - offset] else 0
  {
    seq(PAGE, k requires 0 <= k < PAGE => if offset <= k < offset + |src| then src[k - offset] else 0)
  }

  /** load_icode_mapper when its allocations succeed: the page of va is replaced. */
  function Mapped(pages: map<nat, Page>, va: nat, offset: nat, writable: bool, src: seq<int>): (r: map<nat, Page>)
    requires offset + |src| <= PAGE
  {
    pages[va / PAGE := Page(Filled(offset, src), writable)]
  }

  function Min(a: nat, b: nat): (r: nat) { if a < b then a else b }

  function Max(a: nat, b: nat): (r: nat) { if a < b then b else a }

  // ---------------------------------------------------------------------------
  // What the segment's memory image must be

  /** The file's bytes from va on, then zeros. */
  function ByteAt(va: nat, bin: seq<int>, a: nat): (r: int) {
    if va <= a < va + |bin| then bin[a - va] else 0
  }

  function ImagePage(va: nat, bin: seq<int>, writable: bool, v: nat): (r: Page)
    ensures r.writable == writable && |r.bytes| == PAGE
    ensures forall k: nat :: k < PAGE ==> r.bytes[k] == ByteAt(va, bin, v * PAGE + k)
  {
    Page(seq(PAGE, (k: nat) requires k < PAGE => ByteAt(va, bin, v * PAGE + k)), writable)
  }

  /** The image of pages lo..hi. */
  function ImageTo(va: nat, bin: seq<int>, writable: bool, lo: nat, hi: nat): (r: map<nat, Page>) {
    map v: nat | lo <= v < hi :: ImagePage(va, bin, writable, v)
  }

  /** One past the last page the segment touches; its first page is va / PAGE. */
  function EndPage(va: nat, size: nat): (r: nat) { (va + size + PAGE - 1) / PAGE }

  /** The image of the whole segment: the pages that cover it, and no other. */
  function Image(va: nat, bin: seq<int>, memsz: nat, writable: bool): (r: map<nat, Page>)
    ensures forall v: nat :: v in r <==> v * PAGE < va + Max(|bin|, memsz) && va < (v + 1) * PAGE
  {
    ImageTo(va, bin, writable, va / PAGE, EndPage(va, Max(|bin|, memsz)))
  }

  /** The segments on which the loader meets it. */
  predicate Sound(va: nat, bin: seq<int>, memsz: nat) {
    var offset := va % PAGE;
    || offset == 0
    || |bin| >= PAGE - offset
    || memsz <= |bin|
    || (AllZero(bin) && offset + |bin| + (memsz - 1 - |bin|) % PAGE < PAGE)
  }

  predicate AllZero(bin: seq<int>) { forall k :: 0 <= k < |bin| ==> bin[k] == 0 }

  // ---------------------------------------------------------------------------
  // The loader

  /** The file part starts on a page or reaches the end of its first one, so that all calls
      after the first are for whole pages. */
  predicate Straight(va: nat, bin: seq<int>) { va % PAGE == 0 || |bin| >= PAGE - va % PAGE }

  /** What is mapped when the loop counter is i.  Off the straight path a second call for the
      first page has put a zero page over the file's bytes. */
  ghost predicate Progress(pages: map<nat, Page>, out: map<nat, Page>, va: nat, bin: seq<int>, writable: bool, i: nat) {
    var lo := va / PAGE;
    if Straight(va, bin) then
      (va + i) % PAGE == 0 && out == pages + ImageTo(va, bin, writable, lo, (va + i) / PAGE)
    else
      && i >= |bin| && (i - |bin|) % PAGE == 0
      && out == pages + (if i == |bin| then ImageTo(va, bin, writable, lo, lo + 1)
                         else ImageTo(va, [], writable, lo, lo + (i - |bin|) / PAGE))
  }

  /** On the straight path one call has been made for each page so far. */
  ghost predicate Spent(used: int, va: nat, i: nat) { (va + i) % PAGE == 0 && used == (va + i) / PAGE - va / PAGE }

  /** The calls that map zero pages when the file part ends inside the segment's first page. */
  function Blanks(bin: seq<int>, memsz: nat): (r: nat) {
    if memsz <= |bin| then 0 else (memsz - |bin| + PAGE - 1) / PAGE
  }

  /** Off the straight path: the first call and one for each zero page so far. */
  ghost predicate SpentCrooked(used: int, n: nat, i: nat) {
    i >= n && (i - n) % PAGE == 0 && used == 1 + (i - n) / PAGE
  }

  /** One more zero page is due exactly while the memory part goes on. */
  lemma BlanksLeft(bin: seq<int>, memsz: nat, i: nat)
    requires i >= |bin| && (i - |bin|) % PAGE == 0
    ensures i < memsz ==> (i - |bin|) / PAGE < Blanks(bin, memsz)
    ensures i >= memsz && (i == |bin| || i < memsz + PAGE) ==> (i - |bin|) / PAGE == Blanks(bin, memsz)
  {
  }

  function Start(va: nat, bin: seq<int>): (r: nat) {
    if va % PAGE != 0 then Min(|bin|, PAGE - va % PAGE) else 0
  }

  lemma FirstPage(va: nat, bin: seq<int>, writable: bool)
    ensures var offset := va % PAGE;
            Page(Filled(offset, bin[..Min(|bin|, PAGE - offset)]), writable) == ImagePage(va, bin, writable, va / PAGE)
  {
    var offset := va % PAGE;
    var l, r := Filled(offset, bin[..Min(|bin|, PAGE - offset)]), ImagePage(va, bin, writable, va / PAGE).bytes;
    assert va / PAGE * PAGE == va - offset;
    assert l == r;
  }

  lemma NextPage(va: nat, bin: seq<int>, writable: bool, i: nat)
    requires (va + i) % PAGE == 0 && i < |bin|
    ensures Page(Filled(0, bin[i..i + Min(|bin| - i, PAGE)]), writable) == ImagePage(va, bin, writable, (va + i) / PAGE)
  {
    var l, r := Filled(0, bin[i..i + Min(|bin| - i, PAGE)]), ImagePage(va, bin, writable, (va + i) / PAGE).bytes;
    assert (va + i) / PAGE * PAGE == va + i;
    assert l == r;
  }

  lemma ZeroPage(va: nat, bin: seq<int>, writable: bool, i: nat)
    requires (va + i) % PAGE == 0 && i >= |bin|
    ensures Page(Filled(0, []), writable) == ImagePage(va, bin, writable, (va + i) / PAGE)
  {
    var l, r := Filled(0, []), ImagePage(va, bin, writable, (va + i) / PAGE).bytes;
    assert (va + i) / PAGE * PAGE == va + i;
    assert l == r;
  }

  /** The first call, or none. */
  lemma ProgressStart(pages: map<nat, Page>, va: nat, bin: seq<int>, writable: bool)
    ensures var first := Mapped(pages, va, va % PAGE, writable, bin[..Min(|bin|, PAGE - va % PAGE)]);
            Progress(pages, if va % PAGE != 0 then first else pages, va, bin, writable, Start(va, bin))
  {
    var lo := va / PAGE;
    hide ImagePage, Filled;
    assert pages == pages + ImageTo(va, bin, writable, lo, lo);
    FirstPage(va, bin, writable);
    assert pages[lo := ImagePage(va, bin, writable, lo)] == pages + ImageTo(va, bin, writable, lo, lo + 1);
  }

  lemma ProgressFile(pages: map<nat, Page>, out: map<nat, Page>, va: nat, bin: seq<int>, writable: bool, i: nat)
    requires Progress(pages, out, va, bin, writable, i) && i < |bin|
    ensures
      var next := Mapped(out, va + i, 0, writable, bin[i..i + Min(|bin| - i, PAGE)]);
      Progress(pages, next, va, bin, writable, i + PAGE)
  {
    NextPage(va, bin, writable, i);
    hide ImagePage, Filled;
    var lo, hi := va / PAGE, (va + i) / PAGE;
    assert ImageTo(va, bin, writable, lo, hi + 1) ==
        ImageTo(va, bin, writable, lo, hi)[hi := ImagePage(va, bin, writable, hi)];
  }

  lemma ProgressZero(pages: map<nat, Page>, out: map<nat, Page>, va: nat, bin: seq<int>, writable: bool, i: nat)
    requires Progress(pages, out, va, bin, writable, i) && i >= |bin|
    ensures Progress(pages, Mapped(out, va + i, 0, writable, []), va, bin, writable, i + PAGE)
  {
    if Straight(va, bin) {
      ProgressStraight(pages, out, va, bin, writable, i);
    } else {
      ProgressCrooked(pages, out, va, bin, writable, i);
    }
  }

  lemma ProgressStraight(pages: map<nat, Page>, out: map<nat, Page>, va: nat, bin: seq<int>, writable: bool, i: nat)
    requires Progress(pages, out, va, bin, writable, i) && i >= |bin| && Straight(va, bin)
    ensures Progress(pages, Mapped(out, va + i, 0, writable, []), va, bin, writable, i + PAGE)
  {
    ZeroPage(va, bin, writable, i);
    hide ImagePage, Filled;
    var lo, hi := va / PAGE, (va + i) / PAGE;
    assert ImageTo(va, bin, writable, lo, hi + 1) ==
        ImageTo(va, bin, writable, lo, hi)[hi := ImagePage(va, bin, writable, hi)];
  }

  lemma SamePlace(va: nat, n: nat, i: nat)
    requires i >= n && (i - n) % PAGE == 0 && va % PAGE + n < PAGE
    ensures (va + i) / PAGE == va / PAGE + (i - n) / PAGE
  {
  }

  lemma PutBlank(pages: map<nat, Page>, out: map<nat, Page>, va: nat, bin: seq<int>, writable: bool, lo: nat, k: nat)
    requires out == pages +
               (if k == 0 then ImageTo(va, bin, writable, lo, lo + 1) else ImageTo(va, [], writable, lo, lo + k))
    ensures out[lo + k := ImagePage(va, [], writable, lo + k)] == pages + ImageTo(va, [], writable, lo, lo + k + 1)
  {
    hide ImagePage;
  }

  lemma ProgressCrooked(pages: map<nat, Page>, out: map<nat, Page>, va: nat, bin: seq<int>, writable: bool, i: nat)
    requires Progress(pages, out, va, bin, writable, i) && i >= |bin| && !Straight(va, bin)
    ensures Progress(pages, Mapped(out, va + i, 0, writable, []), va, bin, writable, i + PAGE)
  {
    hide ImagePage, ImageTo, Filled;
    SamePlace(va, |bin|, i);
    var lo, k := va / PAGE, (i - |bin|) / PAGE;
    assert (i + PAGE - |bin|) % PAGE == 0 && (i + PAGE - |bin|) / PAGE == k + 1;
    ImageOfZeros(va, [], writable, lo + k);
    PutBlank(pages, out, va, bin, writable, lo, k);
  }

  /** elf_load_seg.  It fails exactly when the mapper runs out of pages: when there are fewer than
      the segment has or, off the straight path, fewer than the calls it makes.  Otherwise what is mapped over an
      untouched range is the segment's image if and only if the segment is one of the sound ones;
      and on those it is whatever was mapped before. */
  method ElfLoadSeg(pages: map<nat, Page>, va: nat, bin: seq<int>, memsz: nat, writable: bool, budget: nat)
      returns (ok: bool, out: map<nat, Page>, left: nat)
    ensures !ok ==> left == 0
    ensures Straight(va, bin) ==> (ok <==> budget >= EndPage(va, Max(|bin|, memsz)) - va / PAGE)
    ensures !Straight(va, bin) ==> (ok <==> budget >= 1 + Blanks(bin, memsz))
    ensures ok && Sound(va, bin, memsz) ==> out == pages + Image(va, bin, memsz, writable)
    ensures && ok && pages.Keys !! Image(va, bin, memsz, writable).Keys
            && out == pages + Image(va, bin, memsz, writable) ==>
              Sound(va, bin, memsz)
  {
    hide Progress, Image, Sound, Mapped, Blanks;
    if !Straight(va, bin) { BlanksLeft(bin, memsz, |bin|); }
    var offset := va % PAGE;
    out, left := pages, budget;
    ProgressStart(pages, va, bin, writable);
    if offset != 0 {
      if left == 0 { return false, out, left; }
      out := Mapped(out, va, offset, writable, bin[..Min(|bin|, PAGE - offset)]);
      left := left - 1;
    }
    var i := if offset != 0 then Min(|bin|, PAGE - offset) else 0;
    while i < |bin|
      invariant i == Start(va, bin) || i < |bin| + PAGE
      invariant Straight(va, bin) ==> Spent(budget - left, va, i)
      invariant !Straight(va, bin) ==> SpentCrooked(budget - left, |bin|, i)
      invariant Progress(pages, out, va, bin, writable, i)
    {
      if left == 0 { return false, out, left; }
      ProgressFile(pages, out, va, bin, writable, i);
      out := Mapped(out, va + i, 0, writable, bin[i..i + Min(|bin| - i, PAGE)]);
      left := left - 1;
      i := i + PAGE;
    }
    while i < memsz
      invariant i >= |bin| && (i == Start(va, bin) || i < Max(|bin|, memsz) + PAGE)
      invariant Straight(va, bin) ==> Spent(budget - left, va, i)
      invariant !Straight(va, bin) ==> SpentCrooked(budget - left, |bin|, i)
      invariant Progress(pages, out, va, bin, writable, i)
    {
      if !Straight(va, bin) { BlanksLeft(bin, memsz, i); }
      if left == 0 { return false, out, left; }
      ProgressZero(pages, out, va, bin, writable, i);
      out := Mapped(out, va + i, 0, writable, []);
      left := left - 1;
      i := i + PAGE;
    }
    if Straight(va, bin) {
      DoneStraight(pages, out, va, bin, memsz, writable, i);
    } else {
      BlanksLeft(bin, memsz, i);
      DoneCrooked(pages, out, va, bin, memsz, writable, i);
    }
    ok := true;
  }

  lemma DoneStraight(pages: map<nat, Page>, out: map<nat, Page>, va: nat, bin: seq<int>, memsz: nat,
      writable: bool, i: nat)
    requires Progress(pages, out, va, bin, writable, i) && Straight(va, bin)
    requires i >= Max(|bin|, memsz) && (i == Start(va, bin) || i < Max(|bin|, memsz) + PAGE)
    ensures Sound(va, bin, memsz) && out == pages + Image(va, bin, memsz, writable)
  {
    hide ImagePage;
    assert (va + i) / PAGE == EndPage(va, Max(|bin|, memsz));
  }

  /** A segment whose file part ends inside its first page and whose memory part goes on: the
      loader says it succeeded, and its zero page hides the file's byte. */
  method CrookedSegment() returns (ok: bool, out: map<nat, Page>)
    ensures ok && out != Image(0x40_0001, [7], 2, true)
  {
    var left;
    ok, out, left := ElfLoadSeg(map[], 0x40_0001, [7], 2, true, 100);
    assert [7][0] != 0;
    assert !Sound(0x40_0001, [7], 2);
    assert map[] + Image(0x40_0001, [7], 2, true) == Image(0x40_0001, [7], 2, true);
  }

  lemma DoneCrooked(pages: map<nat, Page>, out: map<nat, Page>, va: nat, bin: seq<int>, memsz: nat,
      writable: bool, i: nat)
    requires Progress(pages, out, va, bin, writable, i) && !Straight(va, bin)
    requires i >= Max(|bin|, memsz) && (i == |bin| || i < Max(|bin|, memsz) + PAGE)
    ensures Sound(va, bin, memsz) ==> out == pages + Image(va, bin, memsz, writable)
    ensures pages.Keys !! Image(va, bin, memsz, writable).Keys && out == pages + Image(va, bin, memsz, writable) ==>
              Sound(va, bin, memsz)
  {
    var lo := va / PAGE;
    if memsz <= |bin| {
      assert i == |bin|;
      assert EndPage(va, |bin|) == lo + 1;
    } else {
      DoneOver(pages, out, va, bin, memsz, writable, i);
    }
  }

  /** The memory part is longer than a file part that ends in its first page. */
  lemma DoneOver(pages: map<nat, Page>, out: map<nat, Page>, va: nat, bin: seq<int>, memsz: nat, writable: bool, i: nat)
    requires Progress(pages, out, va, bin, writable, i) && !Straight(va, bin)
    requires i >= memsz > |bin| && i < memsz + PAGE
    ensures Sound(va, bin, memsz) ==> out == pages + Image(va, bin, memsz, writable)
    ensures pages.Keys !! Image(va, bin, memsz, writable).Keys && out == pages + Image(va, bin, memsz, writable) ==>
              Sound(va, bin, memsz)
  {
    var lo, n, hi := va / PAGE, (i - |bin|) / PAGE, EndPage(va, memsz);
    assert out == pages + ImageTo(va, [], writable, lo, lo + n);
    LastPage(va, |bin|, memsz, i);
    if AllZero(bin) {
      forall v: nat ensures ImagePage(va, bin, writable, v) == ImagePage(va, [], writable, v) {
        ImageOfZeros(va, bin, writable, v);
        ImageOfZeros(va, [], writable, v);
      }
      hide ImagePage;
      if lo + n < hi {
        assert lo + n in Image(va, bin, memsz, writable);
      }
    } else {
      var k :| 0 <= k < |bin| && bin[k] != 0;
      assert lo in out && out[lo] == ImagePage(va, [], writable, lo);
      assert out[lo].bytes[va % PAGE + k] == 0;
      assert ImagePage(va, bin, writable, lo).bytes[va % PAGE + k] == bin[k];
    }
  }

  /** How far the calls reach: short of the last page by one, or just to it. */
  lemma LastPage(va: nat, n: nat, memsz: nat, i: nat)
    requires va % PAGE + n < PAGE && n < memsz <= i < memsz + PAGE && (i - n) % PAGE == 0
    ensures var end, offset := va / PAGE + (i - n) / PAGE, va % PAGE;
            EndPage(va, memsz) == if offset + n + (memsz - 1 - n) % PAGE < PAGE then end else end + 1
  {
    var q, r := (memsz - 1 - n) / PAGE, (memsz - 1 - n) % PAGE;
    assert i - n == (q + 1) * PAGE;
    assert va + memsz + PAGE - 1 == (va / PAGE + q + 1) * PAGE + (va % PAGE + n + r);
  }

  lemma ImageOfZeros(va: nat, bin: seq<int>, writable: bool, v: nat)
    requires AllZero(bin)
    ensures ImagePage(va, bin, writable, v) == Page(Filled(0, []), writable)
  {
    assert ImagePage(va, bin, writable, v).bytes == Filled(0, []);
  }
}
