/** Byte-addressed memory with little-endian 64-bit words at any address. */
module ByteMemory {
  import opened PhysicalMemory

  type Bytes = map<nat, Byte>

  function At(m: Bytes, a: nat): Byte {
    if a in m then m[a] else 0
  }

  function Load(m: Bytes, a: nat, n: nat): nat
    decreases n
  {
    if n == 0 then 0 else At(m, a) + 256 * Load(m, a + 1, n - 1)
  }

  function GetWord(m: Bytes, a: nat): nat { Load(m, a, 8) }

  function PutWord(m: Bytes, a: nat, w: nat): (r: Bytes)
    ensures forall b: nat :: b < a || a + 8 <= b ==> At(r, b) == At(m, b)
    ensures forall b: nat :: b in m ==> b in r
  {
    m[a := Digit(w, 0)][a + 1 := Digit(w, 1)][a + 2 := Digit(w, 2)][a + 3 := Digit(w, 3)]
     [a + 4 := Digit(w, 4)][a + 5 := Digit(w, 5)][a + 6 := Digit(w, 6)][a + 7 := Digit(w, 7)]
  }

  ghost predicate Agree(m: Bytes, m': Bytes, lo: nat, hi: nat) {
    forall b: nat :: lo <= b < hi ==> At(m', b) == At(m, b)
  }

  lemma {:induction false} LoadAgree(m: Bytes, m': Bytes, a: nat, n: nat)
    requires Agree(m, m', a, a + n)
    ensures Load(m', a, n) == Load(m, a, n)
    decreases n
  {
    if n > 0 {
      LoadAgree(m, m', a + 1, n - 1);
    }
  }

  lemma {:induction false} LoadDigits(m: Bytes, a: nat, n: nat, w: nat)
    requires w < Pow256(n) && forall k: nat :: k < n ==> At(m, a + k) == Digit(w, k)
    ensures Load(m, a, n) == w
    decreases n
  {
    if n > 0 {
      assert At(m, a + 0) == Digit(w, 0);
      forall k: nat | k < n - 1
        ensures At(m, a + 1 + k) == Digit(w / 256, k)
      {
        assert At(m, a + (k + 1)) == Digit(w, k + 1);
      }
      LoadDigits(m, a + 1, n - 1, w / 256);
    }
  }

  /** Reading back a word just stored. */
  lemma GetPut(m: Bytes, a: nat, w: Word)
    ensures GetWord(PutWord(m, a, w), a) == w
  {
    WordRange();
    LoadDigits(PutWord(m, a, w), a, 8, w);
  }

  /** A store elsewhere changes no word. */
  lemma GetOther(m: Bytes, a: nat, w: nat, b: nat)
    requires b + 8 <= a || a + 8 <= b
    ensures GetWord(PutWord(m, a, w), b) == GetWord(m, b)
  {
    LoadAgree(m, PutWord(m, a, w), b, 8);
  }

  lemma WordAgrees(m: Bytes, m': Bytes, lo: nat, hi: nat, a: nat)
    requires Agree(m, m', lo, hi) && lo <= a && a + 8 <= hi
    ensures GetWord(m', a) == GetWord(m, a)
  {
    LoadAgree(m, m', a, 8);
  }
}
