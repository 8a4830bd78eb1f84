/** internal/adapter/skill/discovery.go: the walk over skill roots with its shared budgets, over
    an abstract file tree. */
module SkillDiscovery {
  import opened Common

  /** File and skill names are only compared. */
  type Name = nat

  type Path = seq<Name>

  /** What reading a SKILL.md with its manifest gives: a skill, or an issue. */
  datatype Document = Skill(name: Name) | Rejected

  /** A directory lists its entries in name order, as the sort leaves them. */
  datatype Directory = Directory(readable: bool, entries: seq<Entry>)

  datatype Entry =
    | Folder(name: Name, directory: Directory)
    | SkillFile(name: Name, document: Document)
    | Link(name: Name)
    | Vanished(name: Name)
    | OtherFile(name: Name)

  datatype Limits = Limits(maxDepth: nat, maxSkills: nat, maxEntries: nat)

  datatype Reason = EntryLimit | Unreadable | LinkRejected | StatFailed | Invalid

  datatype Issue = Issue(path: Path, reason: Reason)

  datatype Candidate = Candidate(path: Path, name: Name)

  /** The shared counters and what one root's walk has produced. */
  datatype State = State(visited: nat, scanned: nat, found: seq<Candidate>, issues: seq<Issue>)

  // -------------------------------------------------------------------- walk

  function WithIssue(s: State, path: Path, reason: Reason): State { s.(issues := s.issues + [Issue(path, reason)]) }

  function Walk(d: Directory, path: Path, depth: nat, limits: Limits, s: State): State
    decreases d, 1, 0
  {
    if depth > limits.maxDepth || s.visited >= limits.maxSkills then s
    else if s.scanned >= limits.maxEntries then WithIssue(s, path, EntryLimit)
    else if !d.readable then WithIssue(s, path, Unreadable)
    else if |d.entries| > limits.maxEntries - s.scanned then
      WithIssue(s.(scanned := limits.maxEntries), path, EntryLimit)
    else WalkEntries(d, 0, path, depth, limits, s.(scanned := s.scanned + |d.entries|))
  }

  /** The loop over the entries from position `i` on. */
  function WalkEntries(d: Directory, i: nat, path: Path, depth: nat, limits: Limits, s: State): State
    requires i <= |d.entries|
    decreases d, 0, |d.entries| - i
  {
    if i == |d.entries| || s.visited >= limits.maxSkills then s
    else WalkEntries(d, i + 1, path, depth, limits, WalkEntry(d, i, path, depth, limits, s))
  }

  function WalkEntry(d: Directory, i: nat, path: Path, depth: nat, limits: Limits, s: State): State
    requires i < |d.entries|
    decreases d, 0, |d.entries| - i, 0
  {
    var child := path + [d.entries[i].name];
    match d.entries[i]
    case Vanished(_) => WithIssue(s, child, StatFailed)
    case Link(_) => WithIssue(s, child, LinkRejected)
    case OtherFile(_) => s
    case Folder(_, directory) => Walk(directory, child, depth + 1, limits, s)
    case SkillFile(_, Skill(name)) => s.(visited := s.visited + 1, found := s.found + [Candidate(child, name)])
    case SkillFile(_, Rejected) => WithIssue(s.(visited := s.visited + 1), child, Invalid)
  }

  /** What stops a walk at a directory: its depth or the candidates, silently; the entries or an
      unreadable directory, with an issue. Otherwise its entries are counted and walked. */
  lemma WalkStopsExactlyWhen(d: Directory, path: Path, depth: nat, limits: Limits, s: State)
    requires WithinLimits(s, limits)
    ensures var t := Walk(d, path, depth, limits, s);
            if depth > limits.maxDepth || s.visited == limits.maxSkills then t == s
            else if s.scanned == limits.maxEntries || (d.readable && s.scanned + |d.entries| > limits.maxEntries) then
              t == s.(scanned := limits.maxEntries, issues := s.issues + [Issue(path, EntryLimit)])
            else if !d.readable then t == s.(issues := s.issues + [Issue(path, Unreadable)])
            else t == WalkEntries(d, 0, path, depth, limits, s.(scanned := s.scanned + |d.entries|))
  {
  }

  /** What an entry does: links and vanished files are issues, and a SKILL.md counts as visited
      whether it is a candidate or an issue. */
  lemma EntryMeans(d: Directory, i: nat, path: Path, depth: nat, limits: Limits, s: State)
    requires i < |d.entries| && !d.entries[i].Folder?
    ensures var t := WalkEntry(d, i, path, depth, limits, s); var at := path + [d.entries[i].name];
            && t.scanned == s.scanned
            && t.visited == s.visited + (if d.entries[i].SkillFile? then 1 else 0)
            && t.found == (if d.entries[i].SkillFile? && d.entries[i].document.Skill?
                           then s.found + [Candidate(at, d.entries[i].document.name)] else s.found)
            && t.issues == match d.entries[i]
                           case Vanished(_) => s.issues + [Issue(at, StatFailed)]
                           case Link(_) => s.issues + [Issue(at, LinkRejected)]
                           case SkillFile(_, Rejected) => s.issues + [Issue(at, Invalid)]
                           case _ => s.issues
  {
  }

  predicate WithinLimits(s: State, limits: Limits) { s.visited <= limits.maxSkills && s.scanned <= limits.maxEntries }

  /** The budgets hold for any tree, and what was found before stays in front. */
  lemma {:induction false} WalkWithinLimits(d: Directory, path: Path, depth: nat, limits: Limits, s: State)
    requires WithinLimits(s, limits)
    ensures var t := Walk(d, path, depth, limits, s);
            WithinLimits(t, limits) && t.visited >= s.visited && t.scanned >= s.scanned
            && s.found <= t.found && s.issues <= t.issues
    decreases d, 1, 0
  {
    if depth <= limits.maxDepth && s.visited < limits.maxSkills && s.scanned < limits.maxEntries && d.readable
       && |d.entries| <= limits.maxEntries - s.scanned {
      WalkEntriesWithinLimits(d, 0, path, depth, limits, s.(scanned := s.scanned + |d.entries|));
    }
  }

  lemma {:induction false} WalkEntriesWithinLimits(
    d: Directory, i: nat, path: Path, depth: nat, limits: Limits, s: State)
    requires i <= |d.entries| && WithinLimits(s, limits)
    ensures var t := WalkEntries(d, i, path, depth, limits, s);
            WithinLimits(t, limits) && t.visited >= s.visited && t.scanned >= s.scanned
            && s.found <= t.found && s.issues <= t.issues
    decreases d, 0, |d.entries| - i
  {
    if i < |d.entries| && s.visited < limits.maxSkills {
      if d.entries[i].Folder? {
        WalkWithinLimits(d.entries[i].directory, path + [d.entries[i].name], depth + 1, limits, s);
      }
      WalkEntriesWithinLimits(d, i + 1, path, depth, limits, WalkEntry(d, i, path, depth, limits, s));
    }
  }

  // -------------------------------------------------------------- completeness

  datatype File = File(path: Path, document: Document)

  /** Every SKILL.md below a directory within the depth limit, in walking order: not behind a
      link and not in an unreadable directory. */
  function Files(d: Directory, path: Path, depth: nat, maxDepth: nat): seq<File>
    decreases d, 1, 0
  {
    if depth > maxDepth || !d.readable then [] else FilesFrom(d, 0, path, depth, maxDepth)
  }

  function FilesFrom(d: Directory, i: nat, path: Path, depth: nat, maxDepth: nat): seq<File>
    requires i <= |d.entries|
    decreases d, 0, |d.entries| - i
  {
    if i == |d.entries| then []
    else
      var child := path + [d.entries[i].name];
      (match d.entries[i]
       case Folder(_, directory) => Files(directory, child, depth + 1, maxDepth)
       case SkillFile(_, document) => [File(child, document)]
       case _ => [])
      + FilesFrom(d, i + 1, path, depth, maxDepth)
  }

  function SkillOf(f: File): seq<Candidate> {
    if f.document.Skill? then [Candidate(f.path, f.document.name)] else []
  }

  function Skills(files: seq<File>): seq<Candidate> {
    if files == [] then [] else SkillOf(files[0]) + Skills(files[1..])
  }

  lemma {:induction false} SkillsConcat(a: seq<File>, b: seq<File>)
    ensures Skills(a + b) == Skills(a) + Skills(b)
  {
    if a == [] {
      assert a + b == b;
    } else {
      hide SkillOf;
      assert (a + b)[1..] == a[1..] + b;
      SkillsConcat(a[1..], b);
    }
  }

  /** No walk has stopped at a limit. */
  ghost predicate Unlimited(s: State, limits: Limits) {
    s.visited < limits.maxSkills && forall p :: Issue(p, EntryLimit) !in s.issues
  }

  /** `t` continues `s` by exactly these files: each is a candidate, in order, or an issue. */
  ghost predicate Covers(s: State, t: State, files: seq<File>) {
    && t.visited == s.visited + |files|
    && t.found == s.found + Skills(files)
    && forall f | f in files && f.document.Rejected? :: Issue(f.path, Invalid) in t.issues
  }

  /** If no limit was hit, every SKILL.md within the depth is a candidate or an issue. */
  lemma {:induction false} WalkIsComplete(d: Directory, path: Path, depth: nat, limits: Limits, s: State)
    requires WithinLimits(s, limits) && Unlimited(Walk(d, path, depth, limits, s), limits)
    ensures Covers(s, Walk(d, path, depth, limits, s), Files(d, path, depth, limits.maxDepth))
    decreases d, 1, 0
  {
    WalkWithinLimits(d, path, depth, limits, s);
    var t := Walk(d, path, depth, limits, s);
    if depth <= limits.maxDepth {
      if s.scanned >= limits.maxEntries || (d.readable && |d.entries| > limits.maxEntries - s.scanned) {
        IssueAdded(s, path, EntryLimit);
        IssueAdded(s.(scanned := limits.maxEntries), path, EntryLimit);
      } else if d.readable {
        WalkEntriesComplete(d, 0, path, depth, limits, s.(scanned := s.scanned + |d.entries|));
      }
    }
  }

  lemma {:induction false} WalkEntriesComplete(
    d: Directory, i: nat, path: Path, depth: nat, limits: Limits, s: State)
    requires i <= |d.entries| && WithinLimits(s, limits)
    requires Unlimited(WalkEntries(d, i, path, depth, limits, s), limits)
    ensures Covers(s, WalkEntries(d, i, path, depth, limits, s), FilesFrom(d, i, path, depth, limits.maxDepth))
    decreases d, 0, |d.entries| - i
  {
    WalkEntriesWithinLimits(d, i, path, depth, limits, s);
    if i < |d.entries| {
      var u := WalkEntry(d, i, path, depth, limits, s);
      EntryWithinLimits(d, i, path, depth, limits, s);
      WalkEntriesWithinLimits(d, i + 1, path, depth, limits, u);
      WalkEntriesComplete(d, i + 1, path, depth, limits, u);
      var t := WalkEntries(d, i + 1, path, depth, limits, u);
      PrefixMembers(u.issues, t.issues);
      var rest := FilesFrom(d, i + 1, path, depth, limits.maxDepth);
      if d.entries[i].Folder? {
        var child := path + [d.entries[i].name];
        WalkIsComplete(d.entries[i].directory, child, depth + 1, limits, s);
        CoversCompose(s, u, t, Files(d.entries[i].directory, child, depth + 1, limits.maxDepth), rest);
      } else if d.entries[i].SkillFile? {
        var file := File(path + [d.entries[i].name], d.entries[i].document);
        assert [file][1..] == [];
        assert Covers(s, u, [file]);
        CoversCompose(s, u, t, [file], rest);
      } else {
        assert Covers(s, u, []);
        CoversCompose(s, u, t, [], rest);
        assert [] + rest == rest;
      }
    }
  }

  lemma IssueAdded(s: State, path: Path, reason: Reason)
    ensures Issue(path, reason) in WithIssue(s, path, reason).issues
  {
    assert WithIssue(s, path, reason).issues[|s.issues|] == Issue(path, reason);
  }

  lemma PrefixMembers<T>(a: seq<T>, b: seq<T>)
    requires a <= b
    ensures forall x | x in a :: x in b
  {
  }

  lemma EntryWithinLimits(d: Directory, i: nat, path: Path, depth: nat, limits: Limits, s: State)
    requires i < |d.entries| && WithinLimits(s, limits) && s.visited < limits.maxSkills
    ensures WithinLimits(WalkEntry(d, i, path, depth, limits, s), limits)
  {
    if d.entries[i].Folder? {
      WalkWithinLimits(d.entries[i].directory, path + [d.entries[i].name], depth + 1, limits, s);
    }
  }

  lemma CoversCompose(s: State, u: State, t: State, a: seq<File>, b: seq<File>)
    requires Covers(s, u, a) && Covers(u, t, b) && u.issues <= t.issues
    ensures Covers(s, t, a + b)
  {
    SkillsConcat(a, b);
  }

  // ------------------------------------------------------------------ discovery

  /** A root as the walk finds it: missing, refused, or a directory. */
  datatype Root = Missing | Refused | Present(directory: Directory)

  datatype Spec = Spec(root: Root, configured: bool)

  /** The walk's closure over its counters and results. */
  class Walker {
    var visited: nat
    var scanned: nat
    var found: seq<Candidate>
    var issues: seq<Issue>
    const limits: Limits

    function Snapshot(): State
      reads this
    {
      State(visited, scanned, found, issues)
    }

    constructor (limits: Limits)
      ensures this.limits == limits && Snapshot() == State(0, 0, [], [])
    {
      this.limits := limits;
      visited, scanned, found, issues := 0, 0, [], [];
    }

    method Report(path: Path, reason: Reason)
      modifies this`issues
      ensures issues == old(issues) + [Issue(path, reason)]
    {
      issues := issues + [Issue(path, reason)];
    }

    method WalkDirectory(d: Directory, path: Path, depth: nat)
      requires WithinLimits(Snapshot(), limits)
      modifies this
      ensures Snapshot() == Walk(d, path, depth, limits, old(Snapshot())) && WithinLimits(Snapshot(), limits)
      decreases d
    {
      WalkWithinLimits(d, path, depth, limits, Snapshot());
      if depth > limits.maxDepth || visited >= limits.maxSkills { return; }
      var remaining := limits.maxEntries - scanned;
      if remaining <= 0 {
        Report(path, EntryLimit);
        return;
      }
      if !d.readable {
        Report(path, Unreadable);
        return;
      }
      if |d.entries| > remaining {
        scanned := limits.maxEntries;
        Report(path, EntryLimit);
        return;
      }
      scanned := scanned + |d.entries|;
      var index := 0;
      while index < |d.entries|
        invariant index <= |d.entries| && WithinLimits(Snapshot(), limits)
        invariant WalkEntries(d, index, path, depth, limits, Snapshot()) ==
                  Walk(d, path, depth, limits, old(Snapshot()))
      {
        if visited >= limits.maxSkills { return; }
        var entry := d.entries[index];
        var child := path + [entry.name];
        EntryWithinLimits(d, index, path, depth, limits, Snapshot());
        match entry {
          case Vanished(_) => Report(child, StatFailed);
          case Link(_) => Report(child, LinkRejected);
          case OtherFile(_) =>
          case Folder(_, directory) => WalkDirectory(directory, child, depth + 1);
          case SkillFile(_, document) =>
            visited := visited + 1;
            match document {
              case Skill(name) => found := found + [Candidate(child, name)];
              case Rejected => Report(child, Invalid);
            }
        }
        index := index + 1;
      }
    }
  }

  /** Keeping only the first candidate of each name. */
  function FirstOfEach(items: seq<Candidate>): seq<Candidate> {
    if items == [] then []
    else
      var kept := FirstOfEach(items[..|items| - 1]);
      if Named(kept, items[|items| - 1].name) then kept else kept + [items[|items| - 1]]
  }

  predicate Named(items: seq<Candidate>, name: Name) { exists c :: c in items && c.name == name }

  /** No candidate before position `n` has its name. */
  predicate Earliest(items: seq<Candidate>, n: nat) {
    n < |items| && !Named(items[..n], items[n].name)
  }

  lemma NamedAppend(items: seq<Candidate>, c: Candidate, name: Name)
    ensures Named(items + [c], name) <==> Named(items, name) || c.name == name
  {
    assert forall x :: x in items + [c] <==> x in items || x == c;
    if c.name == name { assert c in items + [c]; }
  }

  lemma FirstOfEachAppend(items: seq<Candidate>, c: Candidate)
    ensures FirstOfEach(items + [c]) ==
            if Named(FirstOfEach(items), c.name) then FirstOfEach(items) else FirstOfEach(items) + [c]
  {
    assert (items + [c])[..|items|] == items;
  }

  /** No name is lost. */
  lemma {:induction false} NamesKept(items: seq<Candidate>, name: Name)
    ensures Named(FirstOfEach(items), name) <==> Named(items, name)
  {
    if items != [] {
      var k := |items| - 1;
      assert items == items[..k] + [items[k]];
      NamesKept(items[..k], name);
      NamedAppend(items[..k], items[k], name);
      NamedAppend(FirstOfEach(items[..k]), items[k], name);
      NamesKept(items[..k], items[k].name);
    }
  }

  /** The names left are unique. */
  lemma {:induction false} NamesUnique(items: seq<Candidate>, a: Candidate, b: Candidate)
    requires a in FirstOfEach(items) && b in FirstOfEach(items) && a.name == b.name
    ensures a == b && multiset(FirstOfEach(items))[a] == 1
  {
    var k := |items| - 1;
    var kept := FirstOfEach(items[..k]);
    if Named(kept, items[k].name) {
      NamesUnique(items[..k], a, b);
    } else if a in kept {
      NamesUnique(items[..k], a, if b in kept then b else a);
      assert b in kept;
      assert a != items[k];
    } else {
      assert b == items[k] by { assert b !in kept; }
      assert a !in multiset(kept);
    }
  }

  /** What is left is exactly the earliest candidate of each name. */
  lemma {:induction false} EarliestKept(items: seq<Candidate>, n: nat)
    requires Earliest(items, n)
    ensures items[n] in FirstOfEach(items)
  {
    var k := |items| - 1;
    if n == k {
      NamesKept(items[..k], items[k].name);
    } else {
      assert items[..k][..n] == items[..n];
      EarliestKept(items[..k], n);
    }
  }

  lemma {:induction false} KeptIsEarliest(items: seq<Candidate>, c: Candidate) returns (n: nat)
    requires c in FirstOfEach(items)
    ensures Earliest(items, n) && items[n] == c
  {
    var k := |items| - 1;
    if c in FirstOfEach(items[..k]) {
      n := KeptIsEarliest(items[..k], c);
      assert items[..k][..n] == items[..n];
    } else {
      n := k;
      NamesKept(items[..k], items[k].name);
    }
  }

  /** Every SKILL.md of the roots within the depth limit, in the order of the roots. */
  function AllFiles(specs: seq<Spec>, maxDepth: nat): seq<File> {
    if specs == [] then []
    else
      var k := |specs| - 1;
      AllFiles(specs[..k], maxDepth)
      + if specs[k].root.Present? then Files(specs[k].root.directory, [k], 0, maxDepth) else []
  }

  /** The counters and issues once these roots have been visited. */
  function After(specs: seq<Spec>, limits: Limits): State {
    if specs == [] then State(0, 0, [], [])
    else
      var k := |specs| - 1;
      Visit(specs[k].root, k, limits, After(specs[..k], limits))
  }

  function Visit(root: Root, k: nat, limits: Limits, s: State): State {
    match root
    case Missing => s
    case Refused => WithIssue(s, [k], Unreadable)
    case Present(directory) => Walk(directory, [k], 0, limits, s)
  }

  /** Visiting root `k` fails: it is configured and refused, or its own walk has an issue. */
  predicate Fails(specs: seq<Spec>, k: nat, limits: Limits)
    requires k < |specs|
  {
    specs[k].configured
    && (specs[k].root.Refused? || After(specs[..k + 1], limits).issues != After(specs[..k], limits).issues)
  }

  /** The walk of root `k` uses up the candidates, so that no further root is visited. */
  predicate Full(specs: seq<Spec>, k: nat, limits: Limits)
    requires k < |specs|
  {
    specs[k].root.Present? && After(specs[..k + 1], limits).visited >= limits.maxSkills
  }

  /** Roots before `k` neither fail nor end the discovery. */
  predicate Passed(specs: seq<Spec>, k: nat, limits: Limits)
    requires k <= |specs|
  {
    forall j | 0 <= j < k :: !Fails(specs, j, limits) && !Full(specs, j, limits)
  }

  lemma NothingPassed(specs: seq<Spec>, limits: Limits)
    ensures Passed(specs, 0, limits) && After(specs[..0], limits) == State(0, 0, [], [])
  {
  }

  /** What the loop can see of a visit decides whether it fails or is the last. */
  lemma VisitDecides(specs: seq<Spec>, k: nat, limits: Limits)
    requires k < |specs| && Passed(specs, k, limits) && WithinLimits(After(specs[..k], limits), limits)
    ensures var s := After(specs[..k], limits); var t := Visit(specs[k].root, k, limits, s);
            && After(specs[..k + 1], limits) == t && s.issues <= t.issues
            && (Fails(specs, k, limits) <==>
                  specs[k].configured
                  && (specs[k].root.Refused? || (specs[k].root.Present? && |t.issues| != |s.issues|)))
            && (Full(specs, k, limits) <==> specs[k].root.Present? && t.visited >= limits.maxSkills)
            && (!Fails(specs, k, limits) && !Full(specs, k, limits) ==> Passed(specs, k + 1, limits))
  {
    assert specs[..k + 1][..k] == specs[..k];
    if specs[k].root.Present? {
      WalkWithinLimits(specs[k].root.directory, [k], 0, limits, After(specs[..k], limits));
    }
  }

  lemma NoneRefused(specs: seq<Spec>, limits: Limits)
    requires Passed(specs, |specs|, limits)
    ensures forall k | 0 <= k < |specs| && specs[k].configured :: !specs[k].root.Refused?
  {
    forall k | 0 <= k < |specs| && specs[k].configured ensures !specs[k].root.Refused? {
      assert !Fails(specs, k, limits);
    }
  }

  /** No visited root fails when the last one neither fails nor leaves room for another. */
  lemma NoneFails(specs: seq<Spec>, k: nat, limits: Limits)
    requires k <= |specs| && Passed(specs, k, limits)
    requires k < |specs| ==> !Fails(specs, k, limits) && Full(specs, k, limits)
    ensures forall j | 0 <= j < |specs| :: !(Passed(specs, j, limits) && Fails(specs, j, limits))
  {
  }

  /** discoverNative over its roots; root `k` stands at path [k]. It fails exactly at the first
      configured root that is refused or whose own walk has an issue; any other failure is an
      issue of its own. The result keeps the first
      candidate of each name, and when no limit was hit it does so for every skill there is. */
  method Discover(specs: seq<Spec>, limits: Limits)
    returns (result: Option<seq<Candidate>>, walked: seq<Candidate>, end: State)
    ensures WithinLimits(end, limits) && walked == end.found
    ensures result.Some? ==> result.value == FirstOfEach(walked)
    ensures result.Some? && Unlimited(end, limits) ==> walked == Skills(AllFiles(specs, limits.maxDepth))
    ensures result.Some? && Unlimited(end, limits) ==>
              forall k | 0 <= k < |specs| && specs[k].configured :: !specs[k].root.Refused?
    ensures result.None? <==> exists k | 0 <= k < |specs| :: Passed(specs, k, limits) && Fails(specs, k, limits)
  {
    hide Walk, Fails, Full, Passed, Files, Unlimited, After;
    var walker := new Walker(limits);
    var kept: seq<Candidate> := [];
    NothingPassed(specs, limits);
    for k := 0 to |specs|
      invariant WithinLimits(walker.Snapshot(), limits) && walker.limits == limits
      invariant walker.Snapshot() == After(specs[..k], limits) && Passed(specs, k, limits)
      invariant kept == FirstOfEach(walker.found)
    {
      VisitDecides(specs, k, limits);
      ghost var before := walker.Snapshot();
      match specs[k].root {
        case Missing =>
        case Refused =>
          if specs[k].configured {
            return None, walker.found, walker.Snapshot();
          }
          walker.Report([k], Unreadable);
        case Present(directory) =>
          var found, issues := |walker.found|, |walker.issues|;
          WalkWithinLimits(directory, [k], 0, limits, before);
          walker.WalkDirectory(directory, [k], 0);
          if specs[k].configured && |walker.issues| != issues {
            return None, walker.found, walker.Snapshot();
          }
          assert walker.found[..found] == before.found;
          kept := KeepFirst(kept, walker.found, found);
          if walker.visited >= limits.maxSkills {
            NoneFails(specs, k, limits);
            IssueAdded(walker.Snapshot(), [k], EntryLimit);
            walker.Report([k], EntryLimit);
            LimitReached(walker.Snapshot(), [k], limits);
            return Some(kept), walker.found, walker.Snapshot();
          }
      }
    }
    assert specs[..|specs|] == specs;
    NoneFails(specs, |specs|, limits);
    NoneRefused(specs, limits);
    AfterIsComplete(specs, limits);
    return Some(kept), walker.found, walker.Snapshot();
  }

  lemma LimitReached(s: State, path: Path, limits: Limits)
    requires Issue(path, EntryLimit) in s.issues
    ensures !Unlimited(s, limits)
  {
  }

  /** If no limit was hit, every SKILL.md of the visited roots is a candidate or an issue. */
  lemma {:induction false} AfterIsComplete(specs: seq<Spec>, limits: Limits)
    ensures WithinLimits(After(specs, limits), limits)
    ensures Unlimited(After(specs, limits), limits) ==>
              After(specs, limits).found == Skills(AllFiles(specs, limits.maxDepth))
  {
    hide Walk, Unlimited, Files;
    if specs != [] {
      var k := |specs| - 1;
      var s := After(specs[..k], limits);
      AfterIsComplete(specs[..k], limits);
      assert AllFiles(specs[..k], limits.maxDepth) + [] == AllFiles(specs[..k], limits.maxDepth);
      match specs[k].root {
        case Missing =>
        case Refused => UnlimitedBefore(s, [k], limits);
        case Present(directory) =>
          WalkWithinLimits(directory, [k], 0, limits, s);
          ExtendWalk(specs[..k], directory, k, limits, s);
      }
    }
  }

  lemma UnlimitedBefore(s: State, path: Path, limits: Limits)
    ensures Unlimited(WithIssue(s, path, Unreadable), limits) ==> Unlimited(s, limits)
  {
    PrefixMembers(s.issues, WithIssue(s, path, Unreadable).issues);
  }

  lemma ExtendWalk(specs: seq<Spec>, d: Directory, k: nat, limits: Limits, s: State)
    requires WithinLimits(s, limits)
    requires Unlimited(s, limits) ==> s.found == Skills(AllFiles(specs, limits.maxDepth))
    ensures var t := Walk(d, [k], 0, limits, s);
            && s.found <= t.found && s.issues <= t.issues
            && (Unlimited(t, limits) ==>
                  t.found == Skills(AllFiles(specs, limits.maxDepth) + Files(d, [k], 0, limits.maxDepth)))
  {
    WalkWithinLimits(d, [k], 0, limits, s);
    var t := Walk(d, [k], 0, limits, s);
    if Unlimited(t, limits) {
      PrefixMembers(s.issues, t.issues);
      WalkIsComplete(d, [k], 0, limits, s);
      SkillsConcat(AllFiles(specs, limits.maxDepth), Files(d, [k], 0, limits.maxDepth));
    }
  }

  /** The loop that adds the candidates from position `start` on whose name is new. */
  method KeepFirst(kept: seq<Candidate>, items: seq<Candidate>, start: nat) returns (r: seq<Candidate>)
    requires start <= |items| && kept == FirstOfEach(items[..start])
    ensures r == FirstOfEach(items)
  {
    hide FirstOfEach;
    r := kept;
    var seen: set<Name> := set c | c in kept :: c.name;
    for index := start to |items|
      invariant r == FirstOfEach(items[..index])
      invariant forall name :: name in seen <==> Named(r, name)
    {
      var item := items[index];
      assert items[..index + 1] == items[..index] + [item];
      FirstOfEachAppend(items[..index], item);
      forall name ensures Named(r + [item], name) <==> Named(r, name) || item.name == name {
        NamedAppend(r, item, name);
      }
      hide Named;
      if item.name !in seen {
        seen := seen + {item.name};
        r := r + [item];
      }
    }
    assert items[..|items|] == items;
  }
}
