# Single-file git status for the treemacs file tree

A Dafny model of the helper script that treemacs runs to refresh the git
status of one file and of the directories above it. For the target path it
combines the exit codes of three git probes (`git check-ignore`,
`git ls-files --error-unmatch`, `git diff --exit-code`) into one of the
codes `0` (unmodified), `M` (modified), `?` (untracked) and `!` (ignored),
with that first-match priority: ignored, then untracked, then modified. If
this code equals the previously known state passed by the caller, the script
exits with status 2 and prints nothing. Otherwise it walks the ancestor
directories nearest first. Each ancestor is recorded with its own code until
the first one that is `!` or `?`. That code is then copied onto every
ancestor above it, and their own probes are never read. The result is
printed as an Emacs-Lisp association list `(("path" . "code")...)`.

Modules:

- `Status` (status.dfy): the `Code` and `Probes` datatypes, `Resolve`, and
  the one-character wire form (`Encode`, `Decode`).
- `Propagation` (propagation.dfy): the functional walk (`Walk`, `Compute`),
  its characterisation by the first dominant ancestor, and `ComputeListing`,
  which follows the script's two loops and is proved equal to `Compute`.
- `Alist` (alist.dfy): `Render`, a reader `Read` for the rendered text, and
  `Run`, which gives the exit status and standard output of one run.
- `Scenarios` (scenarios.dfy): worked examples.
- `Wrappers` (wrappers.dfy): `Option`.

Probe results are given as integer exit codes. Each ancestor carries its own
probe triple (`Ancestor(path, probes)`), as each entry of the script's
process list does. The previous state is an arbitrary string.

Facts about the script that shape the model:

- the probes are integer exit codes. Only ignored exit 0, tracked exit 1
  and changed exit 1 fire a rule (lines 19-24 and 41-52). Any other code,
  such as 128 outside a repository, falls through to the next rule;
- a duplicate ancestor path is listed again as a separate entry;
- the ancestor probes start only after the early-exit test (lines 26-32).
  Their start time does not change the listing.

## Model

| member | source | states |
|---|---|---|
| Status.Resolve | src/scripts/treemacs-single-file-git-status.py:17-24 | the code is the strongest one whose probe fires. It is `!` exactly when the ignored exit is 0. It is `?` exactly when the ignored exit is non-zero and the tracked exit is 1. It is `M` exactly when neither of those holds and the changed exit is 1. Otherwise it is `0`. |
| Status.Encode | src/scripts/treemacs-single-file-git-status.py:17-24 | every status is written as one character, one of `0`, `M`, `?`, `!` |
| Status.Decode | src/scripts/treemacs-single-file-git-status.py:26 | a previous-state string names a code exactly when it is one of the four wire codes, and then it is that code's wire form |
| Status.DecodeEncode | src/scripts/treemacs-single-file-git-status.py:26 | reading a code's wire form gives the code back, so distinct codes have distinct wire forms |
| Status.IgnoredWins | src/scripts/treemacs-single-file-git-status.py:19-20 | an ignored exit of 0 gives `!` whatever the tracked and changed exits are |
| Status.OnlyExitOneMeansUntracked | src/scripts/treemacs-single-file-git-status.py:21-22 | a tracked exit other than exactly 1 never gives `?` |
| Propagation.Walk | src/scripts/treemacs-single-file-git-status.py:36-59 | the walk lists exactly one entry per ancestor, with the ancestor paths in input order and duplicates kept |
| Propagation.FirstDominant | src/scripts/treemacs-single-file-git-status.py:41-48 | it finds no index exactly when no ancestor resolves to `!` or `?`. Otherwise the index it finds is dominant and every ancestor before it is not. |
| Propagation.WalkPassThrough | src/scripts/treemacs-single-file-git-status.py:49-53 | if no ancestor is dominant, each ancestor's entry is its own resolved code, which is `M` or `0` |
| Propagation.WalkEntry | src/scripts/treemacs-single-file-git-status.py:41-59 | let k be the first dominant ancestor. The entry of any ancestor i is its own code when i is at most k. Above k it is the code of ancestor k. |
| Propagation.WalkPropagates | src/scripts/treemacs-single-file-git-status.py:41-59 | let k be the first dominant ancestor. Entries up to k carry the ancestors' own codes, and every later ancestor gets the code of ancestor k. |
| Propagation.WalkIgnoresProbesAboveDominant | src/scripts/treemacs-single-file-git-status.py:55-59 | changing the probes of the ancestors above the first dominant one does not change the walk |
| Propagation.Compute | src/scripts/treemacs-single-file-git-status.py:26-34 | the result is Unchanged exactly when the previous state equals the target's wire code. Otherwise the listing has 1 + the number of ancestors entries. The first entry is the target with its own code, and the rest carry the ancestor paths in input order. |
| Propagation.NoPriorStateNeverUnchanged | src/scripts/treemacs-single-file-git-status.py:26-27 | a previous state that is none of the four codes never gives the early exit |
| Propagation.AncestorsIgnoreTarget | src/scripts/treemacs-single-file-git-status.py:34-59 | the ancestor entries are the same whatever the target's path, probes and previous state |
| Propagation.ScanAncestors | src/scripts/treemacs-single-file-git-status.py:36-53 | the first loop records each ancestor's own code. It stops right after the first dominant ancestor and reports that ancestor's index, or it runs through when none is dominant. |
| Propagation.CopyDominant | src/scripts/treemacs-single-file-git-status.py:55-59 | the second loop keeps the entries of ancestors 0 to k and gives every ancestor after k, in order, the propagated code |
| Propagation.LoopsMatchWalk | src/scripts/treemacs-single-file-git-status.py:36-59 | let k be the first dominant ancestor. Entries that carry their own codes up to k and the code of k above it are exactly the walk. |
| Propagation.ListAncestors | src/scripts/treemacs-single-file-git-status.py:36-59 | the two loops together produce exactly the walk's ancestor entries |
| Propagation.ComputeListing | src/scripts/treemacs-single-file-git-status.py:12-59 | the script's own control flow (the if/elif chain, the early exit, the breaking loop and the copying loop) computes exactly what `Compute` computes |
| Alist.Render | src/scripts/treemacs-single-file-git-status.py:61-62 | the output is a parenthesised list. When no path contains a double quote or a backslash, reading it as Lisp string literals gives back exactly the rendered listing: no entry is lost, added, reordered or changed. |
| Alist.CellsAppend | src/scripts/treemacs-single-file-git-status.py:61 | the cells of two listings rendered one after the other are the cells of the joined listing, so cells appear in listing order |
| Alist.RenderAmbiguousForQuotedPaths | src/scripts/treemacs-single-file-git-status.py:61 | paths are inserted verbatim. A one-entry listing whose path contains quotes renders to the same text as a different two-entry listing. |
| Alist.RenderBackslashPathUnreadable | src/scripts/treemacs-single-file-git-status.py:61 | paths are inserted without escaping. In the cell of path `a\`, the backslash escapes the quote meant to close the path, so the string literal runs on to the quote before the code. What follows is no cell, so the rendered list does not read back. |
| Alist.Run | src/scripts/treemacs-single-file-git-status.py:26-63 | the exit status is 2 with no output exactly when the target's code is unchanged. Otherwise it is 0, and the output is the rendered listing followed by a newline. |
| Scenarios.ModifiedFileCleanParent | src/scripts/treemacs-single-file-git-status.py:17-59 | a modified file under a clean directory lists `M` and then `0` |
| Scenarios.UnchangedUntrackedFile | src/scripts/treemacs-single-file-git-status.py:21-27 | an untracked file whose previous state is `?` gives the early exit |
| Scenarios.IgnoredParentPropagates | src/scripts/treemacs-single-file-git-status.py:41-59 | an ignored parent gives `!` to the grandparent, whatever the grandparent's probes |
| Scenarios.UntrackedOverridesLaterModified | src/scripts/treemacs-single-file-git-status.py:41-59 | a modified ancestor above an untracked one is listed `?`, not `M` |

## Left out

- Process spawning: `Popen` with `shell=True`, the git command strings and `.wait()` are replaced by the exit codes they yield, given as `Probes` values.
- Blocking probes: every probe writes to a pipe that the script never reads (lines 13-15 and 66-68) and is only waited on (lines 19-23 and 41-49). A waited probe that prints more than a pipe buffer blocks the script forever. Examples are `git ls-files --error-unmatch` on a large directory, or a long `git diff`. The model assumes every waited probe terminates with an exit code.
- Concurrency and timing: probes run concurrently, and abandoned probes are left running. Neither affects the listing.
- Argument parsing from `sys.argv`. The target, previous state and ancestors are parameters.
- Shell quoting of paths in the git command lines: an environment concern, outside the algorithm.
- A missing git binary only shows up as an exit code of the shell (127), and the model takes that exit code as given.
- Alist.Run: exit statuses other than 0 and 2 are not modelled. An uncaught exception ends the script with exit status 1 and no listing. Examples are `Popen` failing to start a probe process (lines 13-15 and 66-68), and `print` failing to encode a path holding bytes that are invalid in the locale (line 63). A Dafny `string` cannot hold such a path.
- Alist.Render: the read-back is promised only for paths without `"` or `\`, since the script escapes neither. The model's reader `Read` handles the escapes `\"` and `\\` of an Emacs-Lisp string literal and refuses every other escape, rather than modelling the full Emacs-Lisp reader.
