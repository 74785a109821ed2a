/** Physical memory as the kernel sees it: frames of 512 little-endian words, bytes being
    the base-256 digits of the words. */
module PhysicalMemory {

  const PAGE_SIZE: nat := 0x1000
  const ENTRIES: nat := 0x200
  const KERNEL_OFFSET: nat := 0xFFFF_FF80_0000_0000
  /** Frames that fit in the direct map [KERNEL_OFFSET, 2^64). */
  const MAX_FRAMES: nat := 0x800_0000

  type Word = w: nat | w < 0x1_0000_0000_0000_0000
  type Byte = b: nat | b < 0x100
  type Frame = nat
  type Page = p: seq<Word> | |p| == ENTRIES witness seq(ENTRIES, _ => 0)
  type Mem = seq<Page>

  function ZeroPage(): (p: Page)
    ensures forall i :: 0 <= i < ENTRIES ==> p[i] == 0
  {
    seq(ENTRIES, _ => 0)
  }

  /** The kernel's virtual address of a frame; never null and never wrapping. */
  function P2V(f: Frame): (w: Word)
    requires f < MAX_FRAMES
    ensures w != 0
    ensures (w - KERNEL_OFFSET) / PAGE_SIZE == f
  {
    KERNEL_OFFSET + f * PAGE_SIZE
  }

  /** The physical address of a frame. */
  function Address(f: Frame): (w: Word)
    requires f < MAX_FRAMES
    ensures w / PAGE_SIZE == f && w % PAGE_SIZE == 0
  {
    f * PAGE_SIZE
  }

  function SetWord(m: Mem, f: Frame, i: nat, w: Word): (r: Mem)
    requires f < |m| && i < ENTRIES
    ensures |r| == |m|
    ensures forall g :: 0 <= g < |m| && g != f ==> r[g] == m[g]
    ensures forall j :: 0 <= j < ENTRIES ==> r[f][j] == if j == i then w else m[f][j]
  {
    m[f := m[f][i := w]]
  }

  // ---- Bytes of a word ----

  function Pow256(n: nat): nat {
    if n == 0 then 1 else 256 * Pow256(n - 1)
  }

  function Digit(w: nat, j: nat): Byte {
    if j == 0 then w % 256 else Digit(w / 256, j - 1)
  }

  function WithDigit(w: nat, j: nat, b: Byte): nat {
    if j == 0 then w / 256 * 256 + b else WithDigit(w / 256, j - 1, b) * 256 + w % 256
  }

  lemma {:induction false} DigitOfWithDigit(w: nat, j: nat, b: Byte, k: nat)
    ensures Digit(WithDigit(w, j, b), k) == if k == j then b else Digit(w, k)
  {
    if j > 0 && k > 0 {
      DigitOfWithDigit(w / 256, j - 1, b, k - 1);
      assert WithDigit(w, j, b) / 256 == WithDigit(w / 256, j - 1, b);
    }
  }

  lemma {:induction false} WithDigitFits(w: nat, j: nat, b: Byte, n: nat)
    requires w < Pow256(n) && j < n
    ensures WithDigit(w, j, b) < Pow256(n)
  {
    assert w / 256 < Pow256(n - 1);
    if j > 0 {
      WithDigitFits(w / 256, j - 1, b, n - 1);
      AddDigit(WithDigit(w / 256, j - 1, b), w % 256, Pow256(n - 1));
    } else {
      AddDigit(w / 256, b, Pow256(n - 1));
    }
  }

  lemma AddDigit(x: nat, b: Byte, bound: nat)
    requires x < bound
    ensures x * 256 + b < 256 * bound
  {
  }

  lemma WordRange()
    ensures Pow256(8) == 0x1_0000_0000_0000_0000
  {
    assert Pow256(4) == 0x1_0000_0000;
    assert Pow256(8) == 256 * 256 * 256 * 256 * Pow256(4);
  }

  // ---- Bytes of a page ----

  function ByteAt(p: Page, off: nat): Byte
    requires off < PAGE_SIZE
  {
    Digit(p[off / 8], off % 8)
  }

  function SetByte(p: Page, off: nat, b: Byte): (r: Page)
    requires off < PAGE_SIZE
    ensures forall o :: 0 <= o < PAGE_SIZE ==> ByteAt(r, o) == if o == off then b else ByteAt(p, o)
  {
    WordRange();
    WithDigitFits(p[off / 8], off % 8, b, 8);
    var r: Page := p[off / 8 := WithDigit(p[off / 8], off % 8, b)];
    assert forall o :: 0 <= o < PAGE_SIZE ==> ByteAt(r, o) == if o == off then b else ByteAt(p, o) by {
      forall o | 0 <= o < PAGE_SIZE
        ensures ByteAt(r, o) == if o == off then b else ByteAt(p, o)
      {
        if o / 8 == off / 8 {
          DigitOfWithDigit(p[off / 8], off % 8, b, o % 8);
        }
      }
    }
    r
  }

  // ---- Addresses ----

  function PageOf(a: nat): nat { a / 0x1000 }

  function OffsetOf(a: nat): (o: nat)
    ensures o < PAGE_SIZE
  {
    a % 0x1000
  }

  lemma SamePage(a: nat, k: nat)
    requires OffsetOf(a) + k < PAGE_SIZE
    ensures PageOf(a + k) == PageOf(a) && OffsetOf(a + k) == OffsetOf(a) + k
  {
  }

  function Min(a: nat, b: nat): nat {
    if a < b then a else b
  }
}
