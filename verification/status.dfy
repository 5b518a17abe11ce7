/**
 Status of one path as the git status helper of the file tree computes it:
 three git probes are run for the path and their exit codes are combined
 into one of four status codes by a fixed first-match priority.
 */
module Status {
  import opened Wrappers

  /** The four status codes, from weakest to strongest. */
  datatype Code = Unmodified | Modified | Untracked | Ignored

  /** Exit codes of the three probes run for one path:
      `git check-ignore`, `git ls-files --error-unmatch` and `git diff --exit-code`.
      They are integers: any code other than the ones tested (0 for the first,
      1 for the other two) simply does not fire its rule. */
  datatype Probes = Probes(ignored: int, tracked: int, changed: int)

  /** Severity of a code; a stronger code wins over a weaker one. */
  function Rank(c: Code): nat
  {
    match c
    case Unmodified => 0
    case Modified => 1
    case Untracked => 2
    case Ignored => 3
  }

  /** Whether the probe belonging to code `c` reports it for `p`.
      `Unmodified` is the default and is always reported. */
  predicate Fires(p: Probes, c: Code)
  {
    match c
    case Ignored => p.ignored == 0
    case Untracked => p.tracked == 1
    case Modified => p.changed == 1
    case Unmodified => true
  }

  /** The codes that override weaker codes on the ancestors above them. */
  predicate IsDominant(c: Code)
  {
    c == Ignored || c == Untracked
  }

  /** The status of one path: the first rule of
      ignored-exit-0, tracked-exit-1, changed-exit-1 that fires, else unmodified. */
  function Resolve(p: Probes): (c: Code)
    // The result is the strongest code whose probe fires.
    ensures Fires(p, c)
    ensures forall d :: Fires(p, d) ==> Rank(d) <= Rank(c)
    // Each outcome, stated as exactly which exit codes give it.
    ensures c == Ignored <==> p.ignored == 0
    ensures c == Untracked <==> p.ignored != 0 && p.tracked == 1
    ensures c == Modified <==> p.ignored != 0 && p.tracked != 1 && p.changed == 1
    ensures c == Unmodified <==> p.ignored != 0 && p.tracked != 1 && p.changed != 1
  {
    if p.ignored == 0 then Ignored
    else if p.tracked == 1 then Untracked
    else if p.changed == 1 then Modified
    else Unmodified
  }

  /** The one-character wire form of a code. */
  function Encode(c: Code): (s: string)
    ensures |s| == 1
    ensures s == "0" || s == "M" || s == "?" || s == "!"
  {
    match c
    case Unmodified => "0"
    case Modified => "M"
    case Untracked => "?"
    case Ignored => "!"
  }

  /** Reads a wire string back; anything other than the four codes is `None`. */
  function Decode(s: string): (r: Option<Code>)
    ensures r.Some? ==> Encode(r.value) == s
    ensures r.None? ==> forall c :: Encode(c) != s
    ensures r.Some? <==> s == "0" || s == "M" || s == "?" || s == "!"
  {
    if s == "0" then Some(Unmodified)
    else if s == "M" then Some(Modified)
    else if s == "?" then Some(Untracked)
    else if s == "!" then Some(Ignored)
    else None
  }

  /** Reading the wire form of a code gives the code back, so different
      codes have different wire forms. */
  lemma DecodeEncode(c: Code, d: Code)
    ensures Decode(Encode(c)) == Some(c)
    ensures Encode(c) == Encode(d) ==> c == d
  {
  }

  /** An ignored exit of 0 gives `!` whatever the other two probes say. */
  lemma IgnoredWins(p: Probes)
    requires p.ignored == 0
    ensures Encode(Resolve(p)) == "!"
  {
  }

  /** A tracked exit that is not exactly 1 (128 outside a repository, say)
      never gives `?`. */
  lemma OnlyExitOneMeansUntracked(p: Probes)
    requires p.tracked != 1
    ensures Resolve(p) != Untracked
  {
  }
}
