/** Bitmaps kept in 32-bit words, as in the ASID map of kern/env.c and the block maps
    of fs/fs.c and tools/fsformat.c, viewed as the set of their one bits.

    A word is its 32 bits, lowest first; WordUpdates ties that view to the machine
    operations `|= 1 << k` and `&= ~(1 << k)`. */
module Bitmap {

  type Word = w: seq<bool> | |w| == 32 witness seq(32, _ => false)

  /** `words[n / 32] & (1 << (n % 32))`. */
  predicate Bit(words: seq<Word>, n: nat)
    requires n / 32 < |words|
  {
    words[n / 32][n % 32]
  }

  /** `words[n / 32] |= 1 << (n % 32)`. */
  function Set(words: seq<Word>, n: nat): (r: seq<Word>)
    requires n / 32 < |words|
  {
    words[n / 32 := words[n / 32][n % 32 := true]]
  }

  /** `words[n / 32] &= ~(1 << (n % 32))`. */
  function Clear(words: seq<Word>, n: nat): (r: seq<Word>)
    requires n / 32 < |words|
  {
    words[n / 32 := words[n / 32][n % 32 := false]]
  }

  /** The bits that are one. */
  ghost function Ones(words: seq<Word>): (r: set<nat>) {
    set n: nat | n < 32 * |words| && Bit(words, n)
  }

  /** Setting a bit adds exactly that number to the set. */
  lemma SetOnes(words: seq<Word>, n: nat)
    requires n < 32 * |words|
    ensures Ones(Set(words, n)) == Ones(words) + {n}
  {
    forall m: nat | m < 32 * |words| ensures Bit(Set(words, n), m) <==> m == n || Bit(words, m) {
    }
  }

  /** Clearing a bit removes exactly that number. */
  lemma ClearOnes(words: seq<Word>, n: nat)
    requires n < 32 * |words|
    ensures Ones(Clear(words, n)) == Ones(words) - {n}
  {
    forall m: nat | m < 32 * |words| ensures Bit(Clear(words, n), m) <==> m != n && Bit(words, m) {
    }
  }

  /** `1 << k`, one doubling at a time. */
  function Mask(k: nat): (r: bv32)
    requires k < 32
  {
    if k == 0 then 1 else Mask(k - 1) + Mask(k - 1)
  }

  lemma {:induction false} MaskIsShift(k: nat)
    requires k < 32
    ensures Mask(k) == (1 as bv32) << k
  {
    if k > 0 { MaskIsShift(k - 1); }
  }

  lemma {:induction false} MaskDisjoint(k: nat, m: nat)
    requires k < 32 && m < 32 && k != m
    ensures Mask(k) & Mask(m) == 0
    decreases k
  {
    if k == 0 {
      ShiftedIsEven(Mask(m - 1));
    } else if m == 0 {
      ShiftedIsEven(Mask(k - 1));
    } else {
      MaskDisjoint(k - 1, m - 1);
      ShiftBoth(Mask(k - 1), Mask(m - 1));
    }
  }

  lemma ShiftedIsEven(a: bv32)
    ensures 1 & (a + a) == 0 && (a + a) & 1 == 0
  {
  }

  lemma ShiftBoth(a: bv32, b: bv32)
    requires a & b == 0
    ensures (a + a) & (b + b) == 0
  {
  }

  lemma MaskNonzero(k: nat)
    requires k < 32
    ensures Mask(k) != 0
  {
    MaskIsShift(k);
  }

  /** The machine's operations on words, with a mask. */
  predicate Test(b: bv32, mask: bv32) { b & mask != 0 }
  function Or(b: bv32, mask: bv32): (r: bv32) { b | mask }
  function AndNot(b: bv32, mask: bv32): (r: bv32) { b & !mask }

  lemma OrMask(w: bv32, a: bv32, b: bv32, same: bool)
    requires if same then a == b && a != 0 else a & b == 0
    ensures Test(Or(w, a), b) <==> same || Test(w, b)
  {
    if same {
      OrSelf(w, a);
    } else {
      OrDisjoint(w, a, b);
    }
  }

  lemma OrSelf(w: bv32, a: bv32)
    ensures (w | a) & a == a
  {
  }

  lemma OrDisjoint(w: bv32, a: bv32, b: bv32)
    requires a & b == 0
    ensures (w | a) & b == w & b
  {
    assert (w | a) & b == (w & b) | (a & b);
  }

  lemma AndNotMask(w: bv32, a: bv32, b: bv32, same: bool)
    requires if same then a == b else a & b == 0
    ensures Test(AndNot(w, a), b) <==> !same && Test(w, b)
  {
    assert !same ==> (w & !a) & b == w & b;
  }

  /** Bit m of a machine word after bit k was set or cleared through its mask. */
  lemma MachineBits(w: bv32, k: nat, m: nat, a: bv32, b: bv32)
    requires k < 32 && m < 32 && a == Mask(k) && b == Mask(m)
    ensures Test(Or(w, a), b) <==> k == m || Test(w, b)
    ensures Test(AndNot(w, a), b) <==> k != m && Test(w, b)
  {
    hide Test, Or, AndNot, Mask;
    MaskNonzero(k);
    if k != m { MaskDisjoint(k, m); }
    OrMask(w, a, b, k == m);
    AndNotMask(w, a, b, k == m);
  }

  /** The machine word b has the bits of w. */
  ghost predicate Holds(w: Word, b: bv32) { forall k: nat :: k < 32 ==> (w[k] <==> Test(b, Mask(k))) }

  /** The two updates of a machine word are the two updates of a Word. */
  lemma WordUpdates(w: Word, b: bv32, k: nat)
    requires k < 32 && Holds(w, b)
    ensures Holds(w[k := true], Or(b, Mask(k))) && Holds(w[k := false], AndNot(b, Mask(k)))
  {
    hide Test, Or, AndNot, Mask;
    forall m: nat | m < 32
      ensures w[k := true][m] <==> Test(Or(b, Mask(k)), Mask(m))
      ensures w[k := false][m] <==> Test(AndNot(b, Mask(k)), Mask(m))
    {
      MachineBits(b, k, m, Mask(k), Mask(m));
    }
  }
}

/** The ASID bitmap of kern/env.c. */
module Asid {
  import opened Bitmap

  const NASID: nat := 256

  class AsidMap {
    var words: seq<Word>

    ghost predicate Valid()
      reads this
    {
      |words| == NASID / 32
    }

    /** The ASIDs handed out. */
    ghost function Used(): (u: set<nat>)
      reads this
    {
      Ones(words)
    }

    constructor ()
      ensures Valid() && Used() == {}
    {
      words := seq(NASID / 32, _ => seq(32, _ => false));
    }

    /** asid_alloc: hands out the smallest unused ASID, or fails exactly when all 256 are used. */
    method Alloc() returns (ok: bool, asid: nat)
      requires Valid()
      modifies this
      ensures Valid()
      ensures ok <==> exists n: nat :: n < NASID && n !in old(Used())
      ensures ok ==> asid < NASID && asid !in old(Used()) && Used() == old(Used()) + {asid}
      ensures ok ==> forall n: nat :: n < asid ==> n in old(Used())
      ensures !ok ==> Used() == old(Used())
    {
      for i := 0 to NASID
        invariant words == old(words)
        invariant forall n: nat :: n < i ==> n in Used()
      {
        if !Bit(words, i) {
          assert i !in Used();
          SetOnes(words, i);
          words := Set(words, i);
          return true, i;
        }
      }
      return false, 0;
    }

    /** asid_free. */
    method Free(asid: nat)
      requires Valid() && asid < NASID
      modifies this
      ensures Valid() && Used() == old(Used()) - {asid}
    {
      ClearOnes(words, asid);
      words := Clear(words, asid);
    }
  }
}
