/** The block of arguments and environment strings that exec_elf of kernel/proc/exec_elf.c
    builds at the start of a new program's heap: one pass to measure it, one to write it. */
module ArgumentBlock {
  import opened ByteMemory
  import opened CStrings
  import opened PhysicalMemory

  /** The bytes that strs take, NULs included. */
  function Total(strs: seq<CString>): nat
    decreases |strs|
  {
    if strs == [] then 0 else Total(strs[..|strs| - 1]) + |strs[|strs| - 1]|
  }

  /** Where the copy of string i goes when the copies start at pos. */
  function Place(pos: nat, strs: seq<CString>, i: nat): nat
    requires i <= |strs|
  {
    pos + Total(strs[..i])
  }

  lemma PlaceNext(pos: nat, strs: seq<CString>, i: nat)
    requires i < |strs|
    ensures Place(pos, strs, i + 1) == Place(pos, strs, i) + |strs[i]|
  {
    assert strs[..i + 1][..i] == strs[..i];
  }

  lemma {:induction false} PlaceGrows(pos: nat, strs: seq<CString>, i: nat, j: nat)
    requires i <= j <= |strs|
    ensures Place(pos, strs, i) <= Place(pos, strs, j)
    decreases j
  {
    if i < j {
      PlaceNext(pos, strs, j - 1);
      PlaceGrows(pos, strs, i, j - 1);
    }
  }

  /** The copies do not overlap, and lie between pos and pos + Total(strs). */
  lemma CopiesAreDisjoint(pos: nat, strs: seq<CString>, i: nat, j: nat)
    requires i < j < |strs|
    ensures pos <= Place(pos, strs, i) && Place(pos, strs, i) + |strs[i]| <= Place(pos, strs, j)
    ensures Place(pos, strs, j) + |strs[j]| <= pos + Total(strs)
  {
    PlaceNext(pos, strs, i);
    PlaceGrows(pos, strs, i + 1, j);
    PlaceNext(pos, strs, j);
    PlaceGrows(pos, strs, j + 1, |strs|);
    assert strs[..|strs|] == strs;
  }

  /** Pointer i of the array at at refers to a copy of string i. */
  ghost predicate Refers(m: Bytes, at: nat, pos: nat, strs: seq<CString>, i: nat)
    requires i < |strs|
  {
    && GetWord(m, at + 8 * i) == Place(pos, strs, i)
    && Spells(m, Place(pos, strs, i), strs[i])
  }

  /** The bytes at a are those of s, NUL included. */
  ghost predicate Spells(m: Bytes, a: nat, s: CString) {
    forall k: nat :: k < |s| ==> At(m, a + k) == s[k]
  }

  /** An array of pointers at at, ended by a null one, to copies from pos on. */
  ghost predicate Vector(m: Bytes, at: nat, pos: nat, strs: seq<CString>) {
    Refer(m, at, pos, strs, |strs|) && GetWord(m, at + 8 * |strs|) == 0
  }

  ghost predicate Refer(m: Bytes, at: nat, pos: nat, strs: seq<CString>, n: nat)
    requires n <= |strs|
  {
    forall i: nat {:trigger Refers(m, at, pos, strs, i)} :: i < n ==> Refers(m, at, pos, strs, i)
  }

  lemma SpellsAgrees(m: Bytes, m': Bytes, a: nat, s: CString)
    requires Spells(m, a, s) && Agree(m, m', a, a + |s|)
    ensures Spells(m', a, s)
  {
  }

  /** Changing nothing of the first n pointers and copies. */
  lemma ReferAgrees(m: Bytes, m': Bytes, at: nat, pos: nat, strs: seq<CString>, n: nat, slot: nat, end: nat)
    requires n <= |strs| && Refer(m, at, pos, strs, n) && slot == at + 8 * n && end == Place(pos, strs, n)
    requires Agree(m, m', at, slot) && Agree(m, m', pos, end)
    ensures Refer(m', at, pos, strs, n)
  {
    forall i: nat | i < n
      ensures Refers(m', at, pos, strs, i)
    {
      assert Refers(m, at, pos, strs, i);
      var a, p, q := at + 8 * i, Place(pos, strs, i), Place(pos, strs, i + 1);
      Within(pos, strs, i, n);
      hide GetWord, Total;
      WordAgrees(m, m', at, slot, a);
      SpellsAgrees(m, m', p, strs[i]);
    }
  }

  lemma Within(pos: nat, strs: seq<CString>, i: nat, n: nat)
    requires i < n <= |strs|
    ensures pos <= Place(pos, strs, i) && Place(pos, strs, i) + |strs[i]| <= Place(pos, strs, n)
  {
    PlaceNext(pos, strs, i);
    PlaceGrows(pos, strs, i + 1, n);
  }

  lemma VectorAgrees(m: Bytes, m': Bytes, at: nat, pos: nat, strs: seq<CString>)
    requires Vector(m, at, pos, strs)
    requires Agree(m, m', at, at + 8 * |strs| + 8) && Agree(m, m', pos, pos + Total(strs))
    ensures Vector(m', at, pos, strs)
  {
    hide Refer, GetWord, Total;
    assert strs[..|strs|] == strs;
    ReferAgrees(m, m', at, pos, strs, |strs|, at + 8 * |strs|, pos + Total(strs));
    WordAgrees(m, m', at, at + 8 * |strs| + 8, at + 8 * |strs|);
  }

  /** Counting the pointers of the copy, up to the null one, finds as many as there were. */
  lemma CopyHasAsMany(m: Bytes, at: nat, pos: nat, strs: seq<CString>, i: nat)
    requires Vector(m, at, pos, strs) && 0 < pos && i <= |strs|
    ensures GetWord(m, at + 8 * i) == 0 <==> i == |strs|
  {
    if i < |strs| {
      assert Refers(m, at, pos, strs, i);
      PlaceGrows(pos, strs, 0, i);
    }
  }

  lemma ReferNone(m: Bytes, at: nat, pos: nat, strs: seq<CString>)
    ensures Refer(m, at, pos, strs, 0) && Place(pos, strs, 0) == pos
  {
    assert strs[..0] == [];
  }

  /** The size exec_elf asks procmm_setup for. */
  function BlockSize(argv: seq<CString>, envp: seq<CString>): nat {
    Total(argv) + 8 * (|argv| + 1) + Total(envp) + 8 * (|envp| + 1) + 16 + 1
  }

  function EnvpAt(start: nat, argv: seq<CString>): nat { start + 8 * (|argv| + 1) }

  function AuxvAt(start: nat, argv: seq<CString>, envp: seq<CString>): nat { EnvpAt(start, argv) + 8 * (|envp| + 1) }

  function StringsAt(start: nat, argv: seq<CString>, envp: seq<CString>): nat { AuxvAt(start, argv, envp) + 16 }

  /** The loops that count one list of strings. */
  method CountStrings(strs: seq<CString>, len0: nat) returns (len: nat, count: nat)
    ensures count == |strs| && len == len0 + Total(strs)
  {
    count, len := 0, len0;
    while count < |strs|
      invariant count <= |strs| && len == len0 + Total(strs[..count])
    {
      PlaceNext(len0, strs, count);
      var l := StrLen(strs[count]);
      len := len + (l + 1);
      count := count + 1;
    }
    assert strs[..|strs|] == strs;
  }

  class Program {
    var mem: Bytes // the program's memory, as its own tables show it

    method Memcpy(dest: nat, src: CString)
      modifies this
      ensures forall k: nat :: k < |src| ==> At(mem, dest + k) == src[k]
      ensures forall b: nat :: b < dest || dest + |src| <= b ==> At(mem, b) == At(old(mem), b)
    {
      var n := 0;
      while n < |src|
        invariant 0 <= n <= |src|
        invariant forall k: nat :: k < n ==> At(mem, dest + k) == src[k]
        invariant forall b: nat :: b < dest || dest + n <= b ==> At(mem, b) == At(old(mem), b)
      {
        mem := mem[dest + n := src[n]];
        n := n + 1;
      }
    }

    /** One iteration of a copying loop: the pointer in its slot, the string at pos. */
    method CopyOne(at: nat, pos0: nat, strs: seq<CString>, i: nat, slot: nat, pos: nat) returns (next: nat)
      requires i < |strs| && Refer(mem, at, pos0, strs, i) && slot == at + 8 * i && pos == Place(pos0, strs, i)
      requires slot + 8 <= pos0 && pos < 0x1_0000_0000_0000_0000
      modifies this
      ensures Refer(mem, at, pos0, strs, i + 1) && next == Place(pos0, strs, i + 1) >= pos
      ensures forall b: nat :: (b < slot || slot + 8 <= b) && (b < pos || next <= b) ==> At(mem, b) == At(old(mem), b)
    {
      hide GetWord, PutWord, Total;
      PlaceNext(pos0, strs, i);
      ghost var m0 := mem;
      var len := StrLen(strs[i]);
      mem := PutWord(mem, slot, pos);
      GetPut(m0, slot, pos);
      ghost var m1 := mem;
      Memcpy(pos, strs[i]);
      WordAgrees(m1, mem, slot, slot + 8, slot);
      ReferAgrees(m0, mem, at, pos0, strs, i, slot, pos);
      assert Refers(mem, at, pos0, strs, i);
      next := pos + (len + 1);
    }

    /** A copying loop of exec_elf and the null pointer it ends with. */
    method CopyStrings(at: nat, pos0: nat, strs: seq<CString>) returns (pos: nat)
      requires at + 8 * |strs| + 8 <= pos0 && pos0 + Total(strs) < 0x1_0000_0000_0000_0000
      modifies this
      ensures pos == pos0 + Total(strs) && Vector(mem, at, pos0, strs)
      ensures forall b: nat :: (b < at || at + 8 * |strs| + 8 <= b) && (b < pos0 || pos <= b) ==>
        At(mem, b) == At(old(mem), b)
    {
      hide GetWord, PutWord, Total, Refer;
      ReferNone(mem, at, pos0, strs);
      var i, slot := 0, at;
      pos := pos0;
      while i < |strs|
        invariant i <= |strs| && slot == at + 8 * i && pos == Place(pos0, strs, i) >= pos0
        invariant Refer(mem, at, pos0, strs, i)
        invariant forall b: nat :: (b < at || slot <= b) && (b < pos0 || pos <= b) ==> At(mem, b) == At(old(mem), b)
      {
        Within(pos0, strs, i, |strs|);
        assert strs[..|strs|] == strs;
        pos := CopyOne(at, pos0, strs, i, slot, pos);
        i, slot := i + 1, slot + 8;
      }
      assert strs[..|strs|] == strs;
      ghost var m1 := mem;
      mem := PutWord(mem, slot, 0);
      GetPut(m1, slot, 0);
      ReferAgrees(m1, mem, at, pos0, strs, |strs|, slot, pos);
    }

    /** exec_elf, apart from loading the image: the block is written from start on, which is
        where procmm_setup puts the heap area; the last byte it asked for stays as it was. */
    method WriteArguments(start: nat, argv: seq<CString>, envp: seq<CString>)
        returns (len: nat, argc: nat, argvAt: nat, ghost pos: nat)
      requires start + BlockSize(argv, envp) < 0x1_0000_0000_0000_0000
      requires BlockSize(argv, envp) < 0x8000_0000 // the sizes are added up in an int
      modifies this
      ensures len == BlockSize(argv, envp) && argc == |argv| && argvAt == start
      // argv, its null, envp, its null, two aux words and the strings, with nothing in between
      ensures EnvpAt(start, argv) == start + 8 * |argv| + 8
      ensures AuxvAt(start, argv, envp) == start + 8 * |argv| + 8 * |envp| + 16
      ensures StringsAt(start, argv, envp) == start + 8 * |argv| + 8 * |envp| + 32
      ensures pos == start + len - 1 && StringsAt(start, argv, envp) + Total(argv) + Total(envp) == pos
      ensures Vector(mem, start, StringsAt(start, argv, envp), argv)
      ensures Vector(mem, EnvpAt(start, argv), StringsAt(start, argv, envp) + Total(argv), envp)
      ensures GetWord(mem, AuxvAt(start, argv, envp)) == 0
      ensures forall b: nat :: b < start || start + len - 1 <= b ==> At(mem, b) == At(old(mem), b)
      ensures Agree(old(mem), mem, AuxvAt(start, argv, envp) + 8, AuxvAt(start, argv, envp) + 16)
    {
      hide GetWord, PutWord, Total, Vector;
      var envc;
      len, argc := CountStrings(argv, 0);
      len := len + (argc + 1) * 8;
      len, envc := CountStrings(envp, len);
      len := len + (envc + 1) * 8;
      len := len + 16 + 1;
      argvAt := start;
      var envpAt := argvAt + (argc + 1) * 8;
      var auxvAt := envpAt + (envc + 1) * 8;
      var strs := auxvAt + 16;
      var p := CopyStrings(argvAt, strs, argv);
      ghost var m1 := mem;
      p := CopyStrings(envpAt, p, envp);
      pos := p;
      VectorAgrees(m1, mem, argvAt, strs, argv);
      ghost var m2 := mem;
      mem := PutWord(mem, auxvAt, 0);
      GetPut(m2, auxvAt, 0);
      VectorAgrees(m2, mem, argvAt, strs, argv);
      VectorAgrees(m2, mem, envpAt, strs + Total(argv), envp);
    }
  }
}
