/** The list of memory areas as procmm_map links it (kernel/proc/procmm.c:64-81), store by
    store. An area above all others is appended. One that some area lies above is inserted
    before each of those in turn (kernel/include/list.h:49-58), which never gives the list it
    should. */
module AreaLists {
  import opened Common
  import opened FamilyLists

  /** LIST_INSERT_BEFORE of a at o; its first store is overwritten by its second. */
  function InsertBefore(f: Family, a: Pid, o: Pid): Family {
    var f1 := SetNext(f, a, o);
    var f2 := SetNext(f1, a, Of(f1, o).prev);
    var f3 := SetPrev(f2, o, a);
    var f4 := if Of(f3, a).prev != 0 then SetNext(f3, Of(f3, a).prev, a) else f3;
    if f4.head.next == o then f4.(head := f4.head.(next := a)) else f4
  }

  /** The loop over the areas above the new one. */
  function InsertBeforeAll(f: Family, a: Pid, above: seq<Pid>): Family {
    if above == [] then f else InsertBefore(InsertBeforeAll(f, a, above[..|above| - 1]), a, above[|above| - 1])
  }

  /** All the stores of procmm_map to the list: the areas of above are those that start above
      the end of the new one, and LIST_APPEND follows if its next link is still null. */
  function MapStores(f: Family, a: Pid, above: seq<Pid>): Family {
    var g := InsertBeforeAll(SetNext(SetPrev(f, a, 0), a, 0), a, above);
    if Of(g, a).next == 0 then After(g, Append(a), 5) else g
  }

  lemma InsertBeforeLeaves(f: Family, a: Pid, o: Pid)
    requires a != o && a != 0 && Of(f, a).prev == 0
    ensures var g := InsertBefore(f, a, o);
      && g.head == Links(f.head.prev, if f.head.next == o then a else f.head.next)
      && Of(g, a) == Links(0, Of(f, o).prev) && Of(g, o) == Links(a, Of(f, o).next)
      && forall q :: q != a && q != o ==> Of(g, q) == Of(f, q)
  {
  }

  /** The areas of s from k to n have been inserted before. */
  ghost predicate Inserted(f: Family, s: seq<Pid>, k: nat, n: nat, a: Pid, g: Family)
    requires k <= n <= |s|
  {
    && (if n == k then g == f else Of(g, a) == Links(0, PrevIn(s, n - 1)) && Of(g, s[n - 1]).prev == a)
    && g.head == Links(f.head.prev, if k == 0 < n then a else f.head.next)
    && forall j: nat {:trigger AboveOk(f, s, n, g, j)} :: j < |s| ==> AboveOk(f, s, n, g, j)
  }

  ghost predicate AboveOk(f: Family, s: seq<Pid>, n: nat, g: Family, j: nat)
    requires j < |s|
  {
    Of(g, s[j]).next == Of(f, s[j]).next && (n <= j ==> Of(g, s[j]).prev == Of(f, s[j]).prev)
  }

  lemma HeadIs(f: Family, s: seq<Pid>, j: nat)
    requires Spells(f, s) && j < |s|
    ensures (f.head.next == s[j] <==> j == 0) && Of(f, s[j]) == Links(PrevIn(s, j), NextIn(s, j))
  {
    assert LinkOk(f, s, j);
  }

  lemma InsertedNext(f: Family, s: seq<Pid>, k: nat, n: nat, a: Pid, g: Family)
    requires Spells(f, s) && k <= n < |s| && a != 0 && a !in s && Of(f, a) == Links(0, 0)
    requires Inserted(f, s, k, n, a, g)
    ensures Inserted(f, s, k, n + 1, a, InsertBefore(g, a, s[n]))
  {
    HeadIs(f, s, n);
    assert AboveOk(f, s, n, g, n);
    InsertBeforeLeaves(g, a, s[n]);
    var h, m := InsertBefore(g, a, s[n]), n + 1;
    forall j: nat | j < |s|
      ensures AboveOk(f, s, m, h, j)
    {
      assert AboveOk(f, s, n, g, j);
      assert j != n ==> s[j] != s[n];
    }
    hide InsertBefore, Spells, Of, AboveOk;
  }

  lemma {:induction false} InsertedLeaves(f: Family, s: seq<Pid>, k: nat, n: nat, a: Pid)
    requires Spells(f, s) && k <= n <= |s| && a != 0 && a !in s && Of(f, a) == Links(0, 0)
    ensures Inserted(f, s, k, n, a, InsertBeforeAll(f, a, s[k..n]))
    decreases n
  {
    hide Spells, Of, InsertBefore;
    if n > k {
      assert s[k..n][..n - k - 1] == s[k..n - 1] && s[k..n][n - k - 1] == s[n - 1];
      InsertedLeaves(f, s, k, n - 1, a);
      InsertedNext(f, s, k, n - 1, a, InsertBeforeAll(f, a, s[k..n - 1]));
    }
  }

  /** The new area's own links are nulled first. */
  lemma Nulled(f: Family, s: seq<Pid>, a: Pid)
    requires Spells(f, s) && a !in s
    ensures var g := SetNext(SetPrev(f, a, 0), a, 0); Spells(g, s) && Of(g, a) == Links(0, 0) && g.freed == f.freed
  {
    var g := SetNext(SetPrev(f, a, 0), a, 0);
    forall i: nat | i < |s|
      ensures LinkOk(g, s, i)
    {
      assert LinkOk(f, s, i);
    }
  }

  /** One area above: it and the new one are not neighbours. */
  lemma OneAboveBreaks(f: Family, s: seq<Pid>, a: Pid)
    requires Spells(f, s) && s != [] && Legal(f, s, Append(a)) && Of(f, a) == Links(0, 0)
    ensures var g, r := InsertBeforeAll(f, a, s[|s| - 1..]), s[..|s| - 1] + [a] + s[|s| - 1..];
      !Spells(if Of(g, a).next == 0 then After(g, Append(a), 5) else g, r)
  {
    var k := |s| - 1;
    InsertedLeaves(f, s, k, |s|, a);
    assert s[k..|s|] == s[k..];
    var g, r := InsertBeforeAll(f, a, s[k..]), s[..k] + [a] + s[k..];
    assert LinkOk(f, s, k);
    if k == 0 {
      AppendLeaves(g, a);
      assert !LinkOk(After(g, Append(a), 5), r, 0);
    } else {
      assert LinkOk(f, s, k - 1);
      assert !LinkOk(g, r, k);
    }
  }

  /** Two or more: the last area is linked back to the new one. */
  lemma MoreAboveBreak(f: Family, s: seq<Pid>, k: nat, a: Pid)
    requires Spells(f, s) && k + 1 < |s| && Legal(f, s, Append(a)) && Of(f, a) == Links(0, 0)
    ensures var g, r := InsertBeforeAll(f, a, s[k..]), s[..k] + [a] + s[k..];
      Of(g, a).next != 0 && !Spells(g, r)
  {
    InsertedLeaves(f, s, k, |s|, a);
    assert s[k..|s|] == s[k..];
    assert LinkOk(f, s, |s| - 2);
    var r := s[..k] + [a] + s[k..];
    assert r[|r| - 1] == s[|s| - 1] && r[|r| - 2] == s[|s| - 2];
    assert !LinkOk(InsertBeforeAll(f, a, s[k..]), r, |r| - 1);
  }

  /** procmm_map links the new area into its place if and only if no area lies above it. */
  lemma MapLinksIff(f: Family, s: seq<Pid>, k: nat, a: Pid)
    requires Spells(f, s) && k <= |s| && Legal(f, s, Append(a))
    ensures Spells(MapStores(f, a, s[k..]), s[..k] + [a] + s[k..]) <==> k == |s|
  {
    Nulled(f, s, a);
    var f0 := SetNext(SetPrev(f, a, 0), a, 0);
    if k == |s| {
      AppendSpells(f0, s, a);
      assert s[k..] == [] && s[..k] + [a] + s[k..] == s + [a];
    } else if k + 1 == |s| {
      OneAboveBreaks(f0, s, a);
    } else {
      MoreAboveBreak(f0, s, k, a);
    }
    hide Spells, After, InsertBefore;
  }
}
