/**
 The ancestor walk of the single-file git status helper: the target's code is
 resolved, compared with the previously known code, and, when it changed, the
 ancestors are walked nearest first; the first ancestor whose own code is
 ignored or untracked hands that code to every ancestor above it.
 */
module Propagation {
  import opened Wrappers
  import opened Status

  type Path = string

  /** One (path, code) pair of the listing. */
  datatype Entry = Entry(path: Path, code: Code)

  /** One ancestor directory together with the exit codes of its own probes. */
  datatype Ancestor = Ancestor(path: Path, probes: Probes)

  /** What one invocation produces: nothing (the target's code is unchanged),
      or the listing of the target followed by its ancestors. */
  datatype Outcome = Unchanged | Listing(entries: seq<Entry>)

  /** The entry an ancestor gets from its own probes. */
  function OwnEntry(a: Ancestor): Entry
  {
    Entry(a.path, Resolve(a.probes))
  }

  /** No ancestor of `ancs` resolves to a dominant code. */
  predicate NoDominant(ancs: seq<Ancestor>)
  {
    forall j :: 0 <= j < |ancs| ==> !IsDominant(Resolve(ancs[j].probes))
  }

  /** `k` is the nearest ancestor whose own code is dominant. */
  predicate FirstDominantAt(ancs: seq<Ancestor>, k: nat)
  {
    k < |ancs| && IsDominant(Resolve(ancs[k].probes)) && NoDominant(ancs[..k])
  }

  /** Every ancestor recorded with the code `c`, its own probes unread. */
  function Propagate(ancs: seq<Ancestor>, c: Code): (r: seq<Entry>)
    ensures |r| == |ancs|
    ensures forall i :: 0 <= i < |r| ==> r[i].path == ancs[i].path && r[i].code == c
  {
    seq(|ancs|, i requires 0 <= i < |ancs| => Entry(ancs[i].path, c))
  }

  /** The ancestor entries, nearest first: each ancestor gets its own code
      until the first dominant one, whose code the rest inherit. */
  function Walk(ancs: seq<Ancestor>): (r: seq<Entry>)
    ensures |r| == |ancs|
    ensures forall i :: 0 <= i < |r| ==> r[i].path == ancs[i].path
  {
    if |ancs| == 0 then []
    else
      var c := Resolve(ancs[0].probes);
      if IsDominant(c) then [Entry(ancs[0].path, c)] + Propagate(ancs[1..], c)
      else [Entry(ancs[0].path, c)] + Walk(ancs[1..])
  }

  /** The nearest ancestor with a dominant code, if any. */
  function FirstDominant(ancs: seq<Ancestor>): (r: Option<nat>)
    ensures r.None? <==> NoDominant(ancs)
    ensures r.Some? ==> FirstDominantAt(ancs, r.value)
  {
    if |ancs| == 0 then None
    else if IsDominant(Resolve(ancs[0].probes)) then Some(0)
    else
      match FirstDominant(ancs[1..])
      case None => None
      case Some(k) =>
        assert ancs[1..][..k] == ancs[1..k + 1];
        Some(k + 1)
  }

  /** Without a dominant ancestor every entry is the ancestor's own code. */
  lemma {:induction false} WalkPassThrough(ancs: seq<Ancestor>)
    requires NoDominant(ancs)
    ensures forall i :: 0 <= i < |ancs| ==> Walk(ancs)[i] == OwnEntry(ancs[i])
    ensures forall i :: 0 <= i < |ancs| ==> Walk(ancs)[i].code in {Modified, Unmodified}
  {
    if |ancs| > 0 {
      WalkPassThrough(ancs[1..]);
    }
  }

  /** Dropping a non-dominant nearest ancestor moves the first dominant one down by one. */
  lemma FirstDominantTail(ancs: seq<Ancestor>, k: nat)
    requires FirstDominantAt(ancs, k)
    requires k > 0
    ensures !IsDominant(Resolve(ancs[0].probes))
    ensures FirstDominantAt(ancs[1..], k - 1)
  {
    assert ancs[..k][0] == ancs[0];
    assert ancs[1..][..k - 1] == ancs[1..k];
    forall j | 0 <= j < k - 1
      ensures !IsDominant(Resolve(ancs[1..k][j].probes))
    {
      assert ancs[1..k][j] == ancs[..k][j + 1];
    }
  }

  /** One step of the walk: the nearest ancestor gets its own code, and the
      rest are either handed that code or walked in turn. */
  lemma WalkUnfold(ancs: seq<Ancestor>)
    requires |ancs| > 0
    ensures Walk(ancs)[0] == OwnEntry(ancs[0])
    ensures IsDominant(Resolve(ancs[0].probes)) ==>
              Walk(ancs)[1..] == Propagate(ancs[1..], Resolve(ancs[0].probes))
    ensures !IsDominant(Resolve(ancs[0].probes)) ==> Walk(ancs)[1..] == Walk(ancs[1..])
  {
  }

  /** With `k` the nearest dominant ancestor, the entry of ancestor `i` is its
      own code up to `k` and the code of ancestor `k` above it. */
  lemma {:induction false} WalkEntry(ancs: seq<Ancestor>, k: nat, i: nat)
    requires FirstDominantAt(ancs, k)
    requires i < |ancs|
    ensures Walk(ancs)[i] == if i <= k then OwnEntry(ancs[i])
                             else Entry(ancs[i].path, Resolve(ancs[k].probes))
  {
    WalkUnfold(ancs);
    if i == 0 {
    } else if k == 0 {
      assert Walk(ancs)[i] == Walk(ancs)[1..][i - 1];
      assert ancs[1..][i - 1] == ancs[i];
    } else {
      FirstDominantTail(ancs, k);
      WalkEntry(ancs[1..], k - 1, i - 1);
      assert Walk(ancs)[i] == Walk(ancs)[1..][i - 1];
      assert ancs[1..][i - 1] == ancs[i];
      assert ancs[1..][k - 1] == ancs[k];
    }
  }

  /** With `k` the nearest dominant ancestor: entries before `k` carry their own
      codes, entry `k` its dominant code, and every later entry that same code. */
  lemma {:induction false} WalkPropagates(ancs: seq<Ancestor>, k: nat)
    requires FirstDominantAt(ancs, k)
    ensures forall i :: 0 <= i <= k ==> Walk(ancs)[i] == OwnEntry(ancs[i])
    ensures forall i :: k < i < |ancs| ==>
              Walk(ancs)[i] == Entry(ancs[i].path, Resolve(ancs[k].probes))
  {
    forall i | 0 <= i <= k
      ensures Walk(ancs)[i] == OwnEntry(ancs[i])
    {
      WalkEntry(ancs, k, i);
    }
    forall i | k < i < |ancs|
      ensures Walk(ancs)[i] == Entry(ancs[i].path, Resolve(ancs[k].probes))
    {
      WalkEntry(ancs, k, i);
    }
  }

  /** Once the nearest dominant ancestor is known, the probes of the ancestors
      above it do not influence the walk. */
  lemma WalkIgnoresProbesAboveDominant(ancs: seq<Ancestor>, other: seq<Ancestor>, k: nat)
    requires FirstDominantAt(ancs, k)
    requires |other| == |ancs|
    requires forall i :: 0 <= i < |ancs| ==> other[i].path == ancs[i].path
    requires forall i :: 0 <= i <= k ==> other[i].probes == ancs[i].probes
    ensures Walk(other) == Walk(ancs)
  {
    assert other[..k] == ancs[..k] by {
      assert forall i :: 0 <= i < k ==> other[i] == ancs[i];
    }
    WalkPropagates(ancs, k);
    WalkPropagates(other, k);
  }

  /** The whole computation: resolve the target, stop if its wire code equals
      the previous state, otherwise list the target and then the walk. */
  function Compute(target: Path, targetProbes: Probes, prev: string, ancs: seq<Ancestor>): (o: Outcome)
    ensures o.Unchanged? <==> prev == Encode(Resolve(targetProbes))
    ensures o.Listing? ==> |o.entries| == 1 + |ancs|
    ensures o.Listing? ==> o.entries[0] == Entry(target, Resolve(targetProbes))
    ensures o.Listing? ==> forall i :: 0 <= i < |ancs| ==> o.entries[i + 1].path == ancs[i].path
  {
    var c := Resolve(targetProbes);
    if prev == Encode(c) then Unchanged
    else
      var w := Walk(ancs);
      assert forall i :: 0 <= i < |w| ==> ([Entry(target, c)] + w)[i + 1] == w[i];
      Listing([Entry(target, c)] + w)
  }

  /** A previous state that is none of the four wire codes never stops early. */
  lemma NoPriorStateNeverUnchanged(target: Path, targetProbes: Probes, prev: string, ancs: seq<Ancestor>)
    requires Decode(prev).None?
    ensures Compute(target, targetProbes, prev, ancs).Listing?
  {
  }

  /** The target's path and probes never influence the ancestor entries. */
  lemma AncestorsIgnoreTarget(t1: Path, p1: Probes, prev1: string, t2: Path, p2: Probes, prev2: string,
                              ancs: seq<Ancestor>)
    requires Compute(t1, p1, prev1, ancs).Listing?
    requires Compute(t2, p2, prev2, ancs).Listing?
    ensures Compute(t1, p1, prev1, ancs).entries[1..] == Compute(t2, p2, prev2, ancs).entries[1..]
  {
    assert Compute(t1, p1, prev1, ancs).entries[1..] == Walk(ancs);
    assert Compute(t2, p2, prev2, ancs).entries[1..] == Walk(ancs);
  }

  /** The first walk loop of the script: ancestors are resolved nearest first
      and recorded with their own codes; the loop stops right after recording
      the first dominant ancestor, whose index it reports. */
  method ScanAncestors(ancs: seq<Ancestor>) returns (entries: seq<Entry>, stop: Option<nat>)
    ensures stop.None? ==> NoDominant(ancs) && |entries| == |ancs|
    ensures stop.Some? ==> FirstDominantAt(ancs, stop.value) && |entries| == stop.value + 1
    ensures forall j :: 0 <= j < |entries| ==> entries[j] == OwnEntry(ancs[j])
  {
    entries := [];
    stop := None;
    var i := 0;
    while i < |ancs|
      invariant 0 <= i <= |ancs|
      invariant |entries| == i
      invariant forall j :: 0 <= j < i ==> entries[j] == OwnEntry(ancs[j])
      invariant NoDominant(ancs[..i])
    {
      var a := ancs[i];
      if a.probes.ignored == 0 {
        entries := entries + [Entry(a.path, Ignored)];
        stop := Some(i);
        return;
      } else if a.probes.tracked == 1 {
        entries := entries + [Entry(a.path, Untracked)];
        stop := Some(i);
        return;
      } else if a.probes.changed == 1 {
        entries := entries + [Entry(a.path, Modified)];
      } else {
        entries := entries + [Entry(a.path, Unmodified)];
      }
      assert ancs[..i + 1] == ancs[..i] + [a];
      i := i + 1;
    }
    assert ancs[..i] == ancs;
  }

  /** The second walk loop of the script: the entries of ancestors `0..k` are
      kept, and every ancestor above `k` is appended with the propagated code,
      its own probes unread. */
  method CopyDominant(ancs: seq<Ancestor>, k: nat, code: Code, entries: seq<Entry>) returns (r: seq<Entry>)
    requires k < |ancs|
    requires |entries| == k + 1
    ensures |r| == |ancs|
    ensures r[..k + 1] == entries
    ensures forall j :: k < j < |ancs| ==> r[j] == Entry(ancs[j].path, code)
  {
    r := entries;
    var i := k + 1;
    while i < |ancs|
      invariant k < i <= |ancs|
      invariant |r| == i
      invariant r[..k + 1] == entries
      invariant forall j :: k < j < i ==> r[j] == Entry(ancs[j].path, code)
    {
      r := r + [Entry(ancs[i].path, code)];
      i := i + 1;
    }
  }

  /** The entries both loops produce are the walk's entries. */
  lemma {:induction false} LoopsMatchWalk(ancs: seq<Ancestor>, k: nat, tail: seq<Entry>)
    requires FirstDominantAt(ancs, k)
    requires |tail| == |ancs|
    requires forall j :: 0 <= j <= k ==> tail[j] == OwnEntry(ancs[j])
    requires forall j :: k < j < |ancs| ==> tail[j] == Entry(ancs[j].path, Resolve(ancs[k].probes))
    ensures tail == Walk(ancs)
  {
    forall j | 0 <= j < |ancs|
      ensures tail[j] == Walk(ancs)[j]
    {
      WalkEntry(ancs, k, j);
    }
  }

  /** Both walk loops together: the ancestor entries of the listing. */
  method ListAncestors(ancs: seq<Ancestor>) returns (tail: seq<Entry>)
    ensures tail == Walk(ancs)
  {
    var walked, stop := ScanAncestors(ancs);
    tail := walked;
    if stop.Some? {
      var k := stop.value;
      tail := CopyDominant(ancs, k, walked[k].code, walked);
      assert forall j :: 0 <= j <= k ==> tail[j] == tail[..k + 1][j];
      LoopsMatchWalk(ancs, k, tail);
    } else {
      WalkPassThrough(ancs);
    }
  }

  /** The computation as the script performs it: the if/elif chain for the
      target, the early-exit test, then the two walk loops. */
  method ComputeListing(target: Path, targetProbes: Probes, prev: string, ancs: seq<Ancestor>)
    returns (o: Outcome)
    ensures o == Compute(target, targetProbes, prev, ancs)
  {
    var newState := Unmodified;
    if targetProbes.ignored == 0 {
      newState := Ignored;
    } else if targetProbes.tracked == 1 {
      newState := Untracked;
    } else if targetProbes.changed == 1 {
      newState := Modified;
    }
    if prev == Encode(newState) {
      return Unchanged;
    }
    var tail := ListAncestors(ancs);
    o := Listing([Entry(target, newState)] + tail);
  }
}
