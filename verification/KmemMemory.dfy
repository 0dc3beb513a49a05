/**
 Byte-addressed memory with little-endian words, as the allocator of kernel/core/kmem.c uses it:
 a free block's next pointer and a live block's magic number are the same eight bytes.
 */
module KmemMemory {

  type Byte = b: int | 0 <= b < 256

  type Memory = nat -> Byte

  function Put1(m: Memory, a: nat, b: Byte): Memory
  {
    (x: nat) => if x == a then b else m(x)
  }

  /** Writing the low w bytes of v at a. */
  function Put(m: Memory, a: nat, w: nat, v: nat): Memory
    decreases w
  {
    if w == 0 then m else Put(Put1(m, a, v % 256), a + 1, w - 1, v / 256)
  }

  function Get(m: Memory, a: nat, w: nat): nat
    decreases w
  {
    if w == 0 then 0 else m(a) + 256 * Get(m, a + 1, w - 1)
  }

  /** fill_memory and zero_memory. */
  function Fill(m: Memory, a: nat, n: nat, b: Byte): Memory
  {
    (x: nat) => if a <= x < a + n then b else m(x)
  }

  ghost predicate Filled(m: Memory, a: nat, n: nat, v: Byte)
  {
    forall x: nat :: a <= x < a + n ==> m(x) == v
  }

  /** m' differs from m at most in the bytes lo to hi - 1. */
  ghost predicate OnlyIn(m: Memory, m': Memory, lo: nat, hi: nat)
  {
    forall x: nat :: !(lo <= x < hi) ==> m'(x) == m(x)
  }

  ghost predicate SameIn(m: Memory, m': Memory, lo: nat, hi: nat)
  {
    forall x: nat :: lo <= x < hi ==> m'(x) == m(x)
  }

  lemma OnlyInTrans(m: Memory, m': Memory, m'': Memory, lo: nat, hi: nat)
    requires OnlyIn(m, m', lo, hi) && OnlyIn(m', m'', lo, hi)
    ensures OnlyIn(m, m'', lo, hi)
  {
  }

  lemma OnlyInWider(m: Memory, m': Memory, lo: nat, hi: nat, lo': nat, hi': nat)
    requires OnlyIn(m, m', lo, hi) && lo' <= lo && hi <= hi'
    ensures OnlyIn(m, m', lo', hi')
  {
  }

  /** Bytes elsewhere are not touched. */
  lemma OnlyInApart(m: Memory, m': Memory, lo: nat, hi: nat, lo': nat, hi': nat)
    requires OnlyIn(m, m', lo, hi) && (hi <= lo' || hi' <= lo)
    ensures SameIn(m, m', lo', hi')
  {
  }

  lemma {:induction false} PutOnlyIn(m: Memory, a: nat, w: nat, v: nat)
    ensures OnlyIn(m, Put(m, a, w, v), a, a + w)
    decreases w
  {
    if w > 0 { PutOnlyIn(Put1(m, a, v % 256), a + 1, w - 1, v / 256); }
  }

  lemma FillOnlyIn(m: Memory, a: nat, n: nat, b: Byte)
    ensures OnlyIn(m, Fill(m, a, n, b), a, a + n)
  {
  }

  lemma {:induction false} GetSame(m: Memory, m': Memory, a: nat, w: nat)
    requires SameIn(m, m', a, a + w)
    ensures Get(m', a, w) == Get(m, a, w)
    decreases w
  {
    if w > 0 { GetSame(m, m', a + 1, w - 1); }
  }

  function Pow256(w: nat): nat
  {
    if w == 0 then 1 else 256 * Pow256(w - 1)
  }

  /** What is written is read back. */
  lemma {:induction false} GetPut(m: Memory, a: nat, w: nat, v: nat)
    requires v < Pow256(w)
    ensures Get(Put(m, a, w, v), a, w) == v
    decreases w
  {
    if w > 0 {
      var m1 := Put1(m, a, v % 256);
      GetPut(m1, a + 1, w - 1, v / 256);
      PutOnlyIn(m1, a + 1, w - 1, v / 256);
    }
  }

  /** A word that does not overlap the written one is unchanged. */
  lemma GetOther(m: Memory, m': Memory, lo: nat, hi: nat, a: nat, w: nat)
    requires OnlyIn(m, m', lo, hi) && (a + w <= lo || hi <= a)
    ensures Get(m', a, w) == Get(m, a, w)
  {
    OnlyInApart(m, m', lo, hi, a, a + w);
    GetSame(m, m', a, w);
  }

  lemma Widths()
    ensures Pow256(2) == 0x1_0000 && Pow256(4) == 0x1_0000_0000 && Pow256(8) == 0x1_0000_0000_0000_0000
  {
    assert Pow256(3) == 0x100_0000;
    assert Pow256(6) == 0x1_0000_0000_0000;
  }
}
