/** The string and memory routines of kernel/mem/string.c that other parts rely on. */
module CStrings {
  import opened PhysicalMemory

  /** memcpy between two buffers. */
  method Copy(dst: array<Byte>, at: nat, src: array<Byte>, from: nat, n: nat)
    requires at + n <= dst.Length && from + n <= src.Length && dst != src
    modifies dst
    ensures forall k :: 0 <= k < dst.Length ==> dst[k] == if at <= k < at + n then src[from + k - at] else old(dst[k])
  {
    var i := 0;
    while i < n
      invariant 0 <= i <= n
      invariant forall k :: 0 <= k < dst.Length ==>
        dst[k] == if at <= k < at + i then src[from + k - at] else old(dst[k])
    {
      dst[at + i] := src[from + i];
      i := i + 1;
    }
  }

  // ---- Strings ----

  /** Exactly the bytes of a C string, its NUL included: indexing past the NUL is an error. */
  predicate IsString(s: seq<Byte>) {
    |s| > 0 && s[|s| - 1] == 0 && forall i :: 0 <= i < |s| - 1 ==> s[i] != 0
  }

  type CString = s: seq<Byte> | IsString(s) witness [0]

  function Text(s: CString): seq<Byte> { s[..|s| - 1] }

  method StrLen(s: CString) returns (len: nat)
    ensures len == |Text(s)|
  {
    len := 0;
    while s[len] != 0
      invariant len < |s|
      decreases |s| - len
    {
      len := len + 1;
    }
  }

  /** How far strncmp gets: past equal characters, up to n of them or the first NUL. */
  ghost predicate StopsAt(s1: CString, s2: CString, n: nat, k: nat) {
    && k < |s1| && k < |s2| && k <= n && s1[..k] == s2[..k]
    && (k == n || s1[k] == 0 || s1[k] != s2[k])
  }

  method StrNCmp(s1: CString, s2: CString, n: Word) returns (diff: int)
    ensures diff == 0 <==> Matches(s1, s2, n)
    ensures exists k: nat :: StopsAt(s1, s2, n, k) && diff == (s1[k] as int) - (s2[k] as int)
  {
    var left: nat, k: nat := n, 0;
    while left != 0 && s1[k] != 0 && s1[k] == s2[k]
      invariant k + left == n && k < |s1| && k < |s2| && s1[..k] == s2[..k]
      decreases left
    {
      k := k + 1;
      left := left - 1;
    }
    StopMatches(s1, s2, n, k);
    diff := (s1[k] as int) - (s2[k] as int);
  }

  /** Not the standard comparison: the character after n equal ones must be equal too. */
  ghost predicate Matches(s1: CString, s2: CString, n: nat) {
    if n < |Text(s1)| then Text(s1)[..n + 1] <= Text(s2) else s1 == s2
  }

  lemma StopMatches(s1: CString, s2: CString, n: nat, k: nat)
    requires StopsAt(s1, s2, n, k)
    ensures s1[k] == s2[k] <==> Matches(s1, s2, n)
  {
    if s1[k] == s2[k] {
      assert s1[..k + 1] == s2[..k + 1];
      if s1[k] == 0 {
        assert s1 == s2;
      } else {
        assert k == n && Text(s1)[..n + 1] == s1[..k + 1];
        assert Text(s2)[..k + 1] == s2[..k + 1];
      }
    }
  }
}
