/** The mount table of kernel/fs/vfs.c. */
module Mounts {
  import opened Common
  import opened CStrings
  import opened PhysicalMemory

  datatype MountPoint = MountPoint(root: nat, pathLen: Word, path: CString)

  /** The mount's path is not empty and the argument starts with it. */
  ghost predicate Covers(m: MountPoint, path: CString) {
    Text(m.path) != [] && Text(m.path) <= Text(path)
  }

  /** Mount i is the longest that covers path, and the first of that length. */
  ghost predicate Closest(ms: seq<MountPoint>, path: CString, i: nat) {
    && i < |ms| && Covers(ms[i], path)
    && (forall j :: 0 <= j < |ms| && Covers(ms[j], path) ==> |ms[j].path| <= |ms[i].path|)
    && (forall j :: 0 <= j < i && Covers(ms[j], path) ==> |ms[j].path| < |ms[i].path|)
  }

  ghost predicate Measured(ms: seq<MountPoint>) {
    forall m :: m in ms ==> m.pathLen == |Text(m.path)|
  }

  /** The argument len - 1 makes up for the extra character that strncmp compares. */
  lemma CoversMatches(m: MountPoint, path: CString)
    requires m.pathLen == |Text(m.path)| > 0
    ensures Covers(m, path) <==> Matches(m.path, path, m.pathLen - 1)
  {
    assert Text(m.path)[..m.pathLen] == Text(m.path);
  }

  /** At most one mount is the closest. */
  lemma ClosestIsUnique(ms: seq<MountPoint>, path: CString, i: nat, j: nat)
    requires Closest(ms, path, i) && Closest(ms, path, j)
    ensures i == j
  {
  }

  class MountTable {
    var mounts: seq<MountPoint>

    ghost predicate Valid()
      reads this
    {
      Measured(mounts)
    }

    constructor ()
      ensures Valid() && mounts == []
    {
      mounts := [];
    }

    /** fs_mount */
    method Mount(root: nat, path: CString)
      requires Valid() && |path| < 0x1_0000_0000_0000_0000
      modifies this
      ensures Valid() && mounts == old(mounts) + [MountPoint(root, |Text(path)|, path)]
    {
      var len := StrLen(path);
      assert path[..len] + [0] == path;
      mounts := mounts + [MountPoint(root, len, path[..len] + [0])];
    }

    /** fs_closest_mp; the index of the mount it returns. */
    method ClosestMount(path: CString) returns (best: Option<nat>)
      requires Valid()
      ensures best.Some? ==> Closest(mounts, path, best.value)
      ensures best == None ==> forall i :: 0 <= i < |mounts| ==> !Covers(mounts[i], path)
    {
      var bestLen: nat := 0;
      best := None;
      var i: nat := 0;
      while i < |mounts|
        invariant i <= |mounts| && (best == None <==> bestLen == 0)
        invariant best.Some? ==> Closest(mounts[..i], path, best.value) && bestLen == |Text(mounts[best.value].path)|
        invariant best == None ==> forall j :: 0 <= j < i ==> !Covers(mounts[j], path)
      {
        var m := mounts[i];
        assert m in mounts;
        var len := m.pathLen;
        // len - 1 wraps around for an empty path
        var diff := StrNCmp(m.path, path, if len == 0 then 0xFFFF_FFFF_FFFF_FFFF else len - 1);
        if len > 0 {
          CoversMatches(m, path);
        }
        if diff == 0 && len > bestLen {
          best := Some(i);
          bestLen := len;
        }
        assert mounts[..i + 1] == mounts[..i] + [m];
        i := i + 1;
      }
      assert mounts[..|mounts|] == mounts;
    }
  }
}
