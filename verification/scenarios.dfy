/**
 Worked examples of the walk, with probe exit codes as git reports them:
 `check-ignore` exits 0 for an ignored path and 1 otherwise,
 `ls-files --error-unmatch` exits 0 for a tracked path and 1 otherwise,
 `diff --exit-code` exits 1 when there are changes and 0 otherwise.
 */
module Scenarios {
  import opened Status
  import opened Propagation

  const CleanProbes := Probes(1, 0, 0)
  const ChangedProbes := Probes(1, 0, 1)
  const UntrackedProbes := Probes(1, 1, 0)
  const IgnoredProbes := Probes(0, 1, 0)

  /** A modified file below a clean directory: both are listed with their own codes. */
  lemma ModifiedFileCleanParent()
    ensures Compute("/r/a.txt", ChangedProbes, "0", [Ancestor("/r", CleanProbes)])
         == Listing([Entry("/r/a.txt", Modified), Entry("/r", Unmodified)])
  {
  }

  /** An untracked file already known as untracked: nothing is listed. */
  lemma UnchangedUntrackedFile()
    ensures Compute("/r/b.txt", Probes(1, 1, 0), "?", [Ancestor("/r", CleanProbes)]) == Unchanged
  {
  }

  /** An ignored parent hands `!` to the grandparent without its probes being read. */
  lemma IgnoredParentPropagates(grandparent: Probes)
    ensures Compute("/r/x/y.txt", ChangedProbes, "0", [Ancestor("/r/x", IgnoredProbes), Ancestor("/r", grandparent)])
         == Listing([Entry("/r/x/y.txt", Modified), Entry("/r/x", Ignored), Entry("/r", Ignored)])
  {
  }

  /** A modified, then an untracked, then a modified ancestor: the last one
      inherits `?` instead of its own `M`. */
  lemma UntrackedOverridesLaterModified()
    ensures Compute("/r/a/b/c.txt", CleanProbes, "M",
                    [Ancestor("/r/a/b", ChangedProbes), Ancestor("/r/a", UntrackedProbes), Ancestor("/r", ChangedProbes)])
         == Listing([Entry("/r/a/b/c.txt", Unmodified), Entry("/r/a/b", Modified),
                     Entry("/r/a", Untracked), Entry("/r", Untracked)])
  {
    var ancs := [Ancestor("/r/a/b", ChangedProbes), Ancestor("/r/a", UntrackedProbes), Ancestor("/r", ChangedProbes)];
    assert ancs[1..] == [Ancestor("/r/a", UntrackedProbes), Ancestor("/r", ChangedProbes)];
    assert ancs[1..][1..] == [Ancestor("/r", ChangedProbes)];
    assert Propagate(ancs[1..][1..], Untracked) == [Entry("/r", Untracked)];
    assert Walk(ancs[1..]) == [Entry("/r/a", Untracked), Entry("/r", Untracked)];
    assert Walk(ancs) == [Entry("/r/a/b", Modified), Entry("/r/a", Untracked), Entry("/r", Untracked)];
  }
}
