/** internal/adapter/memory/records.go: ranking the records a query may see and choosing what
    fits its budgets. Strings are byte sequences. */
module MemorySearch {
  import opened Common
  import opened Ordering
  import opened MemoryRecords

  /** `scores` is the number of query terms each record shares, by ID. The limits are those after
      defaults, which are positive. */
  datatype Query = Query(
    scope: Option<Scope>, category: Option<Category>, workspaceID: string, repositoryID: string,
    pinned: seq<string>, scores: map<string, nat>, maxCandidates: nat, maxBytes: nat, now: int)

  datatype Candidate = Candidate(record: Record, pinned: nat, scope: nat, score: nat)

  // ------------------------------------------------------------------ ranking

  function LastIndex(pins: seq<string>, id: string): (r: Option<nat>)
    ensures r.Some? <==> id in pins
    ensures r.Some? ==> r.value < |pins| && pins[r.value] == id && id !in pins[r.value + 1..]
  {
    if pins == [] then None
    else if pins[|pins| - 1] == id then Some(|pins| - 1)
    else
      assert pins == pins[..|pins| - 1] + [pins[|pins| - 1]];
      var r := LastIndex(pins[..|pins| - 1], id);
      assert r.Some? ==> pins[r.value + 1..] == pins[..|pins| - 1][r.value + 1..] + [pins[|pins| - 1]];
      r
  }

  /** A pinned ID ranks by its last position, any other after the number of distinct pins. */
  function PinRank(pins: seq<string>, id: string): nat {
    var last := LastIndex(pins, id);
    if last.Some? then last.value else |DistinctPins(pins)| + 1
  }

  function DistinctPins(pins: seq<string>): set<string> { set p | p in pins }

  function ScopeRank(s: Scope): nat {
    match s
    case Workspace => 0
    case Repository => 1
    case User => 2
  }

  predicate InScope(c: Content, q: Query) {
    match c.scope
    case User => true
    case Workspace => q.workspaceID != "" && c.scopeID == q.workspaceID
    case Repository => q.repositoryID != "" && c.scopeID == q.repositoryID
  }

  /** Unexpired, of the asked scope and category, and visible to the query. */
  predicate Allowed(r: Record, q: Query) {
    && (r.content.expires.Some? ==> r.content.expires.value > q.now)
    && (q.scope.Some? ==> r.content.scope == q.scope.value)
    && (q.category.Some? ==> r.content.category == q.category.value)
    && InScope(r.content, q)
  }

  function Ranked(r: Record, q: Query): Candidate {
    Candidate(r, PinRank(q.pinned, r.id), ScopeRank(r.content.scope), if r.id in q.scores then q.scores[r.id] else 0)
  }

  predicate Before(a: Candidate, b: Candidate) {
    if a.pinned != b.pinned then a.pinned < b.pinned else BeforeUnpinned(a, b)
  }

  /** The order of candidates of one pin rank. */
  predicate BeforeUnpinned(a: Candidate, b: Candidate) {
    if a.scope != b.scope then a.scope < b.scope
    else if a.score != b.score then a.score > b.score
    else if a.record.updated != b.record.updated then a.record.updated > b.record.updated
    else Less(a.record.id, b.record.id)
  }

  function Candidates(records: seq<Record>, q: Query): seq<Candidate> {
    if records == [] then []
    else (if Allowed(records[0], q) then [Ranked(records[0], q)] else []) + Candidates(records[1..], q)
  }

  lemma {:induction false} CandidatesConcat(a: seq<Record>, b: seq<Record>, q: Query)
    ensures Candidates(a + b, q) == Candidates(a, q) + Candidates(b, q)
  {
    if a == [] {
      assert a + b == b;
    } else {
      assert (a + b)[1..] == a[1..] + b;
      CandidatesConcat(a[1..], b, q);
    }
  }

  lemma {:induction false} CandidateMembers(records: seq<Record>, q: Query, c: Candidate)
    ensures c in Candidates(records, q) <==> c.record in records && Allowed(c.record, q) && c == Ranked(c.record, q)
  {
    if records != [] {
      CandidateMembers(records[1..], q, c);
      assert c.record in records <==> c.record == records[0] || c.record in records[1..];
    }
  }

  lemma {:induction false} DistinctById(records: seq<Record>, a: Record, b: Record)
    requires Distinct(records) && a in records && b in records && a.id == b.id
    ensures a == b
  {
    if a != records[0] && b != records[0] {
      DistinctById(records[1..], a, b);
    }
  }

  /** On the candidates of a valid file the comparator is a strict total order. */
  lemma BeforeIsStrictTotal(records: seq<Record>, q: Query)
    requires Distinct(records)
    ensures StrictTotal(Before, Elements(Candidates(records, q)))
  {
    var s := Elements(Candidates(records, q));
    forall x | x in s ensures !Before(x, x) {
      if Less(x.record.id, x.record.id) { LessAsymmetric(x.record.id, x.record.id); }
    }
    forall x, y, z | x in s && y in s && z in s && Before(x, y) && Before(y, z) ensures Before(x, z) {
      BeforeTransitive(x, y, z);
    }
    forall x, y | x in s && y in s && x != y ensures Before(x, y) || Before(y, x) {
      CandidateMembers(records, q, x);
      CandidateMembers(records, q, y);
      if x.record.id == y.record.id { DistinctById(records, x.record, y.record); }
      LessTotal(x.record.id, y.record.id);
    }
  }

  lemma BeforeTransitive(x: Candidate, y: Candidate, z: Candidate)
    requires Before(x, y) && Before(y, z)
    ensures Before(x, z)
  {
    if Less(x.record.id, y.record.id) && Less(y.record.id, z.record.id) {
      LessTransitive(x.record.id, y.record.id, z.record.id);
    }
  }

  lemma {:induction false} CandidateCount(records: seq<Record>, q: Query, c: Candidate)
    ensures multiset(Candidates(records, q))[c] ==
            if Allowed(c.record, q) && c == Ranked(c.record, q) then multiset(records)[c.record] else 0
  {
    if records != [] {
      CandidateCount(records[1..], q, c);
      assert records == [records[0]] + records[1..];
    }
  }

  lemma CandidatesPermute(a: seq<Record>, b: seq<Record>, q: Query)
    requires multiset(a) == multiset(b)
    ensures multiset(Candidates(a, q)) == multiset(Candidates(b, q))
  {
    forall c ensures multiset(Candidates(a, q))[c] == multiset(Candidates(b, q))[c] {
      CandidateCount(a, q, c);
      CandidateCount(b, q, c);
    }
  }

  function Ranking(records: seq<Record>, q: Query): seq<Candidate> { Sort(Candidates(records, q), Before) }

  // ---------------------------------------------------------------- rendering

  function ScopeName(s: Scope): string {
    match s
    case User => "user"
    case Workspace => "workspace"
    case Repository => "repository"
  }

  function CategoryName(c: Category): string {
    match c
    case Preference => "preference"
    case Convention => "convention"
    case Fact => "fact"
  }

  function RenderRecord(r: Record): string {
    "- id=" + r.id + " scope=" + ScopeName(r.content.scope) + " category=" + CategoryName(r.content.category)
    + ": " + r.content.text
  }

  /** The records one per line. */
  function RenderRecords(records: seq<Record>): string {
    if records == [] then ""
    else if |records| == 1 then RenderRecord(records[0])
    else RenderRecords(records[..|records| - 1]) + "\n" + RenderRecord(records[|records| - 1])
  }

  lemma RenderAppend(records: seq<Record>, r: Record)
    ensures RenderRecords(records + [r]) ==
            if records == [] then RenderRecord(r) else RenderRecords(records) + "\n" + RenderRecord(r)
  {
    assert (records + [r])[..|records|] == records;
  }

  // ---------------------------------------------------------------- selection

  /** Whether the next candidate fits both budgets. */
  predicate Fits(taken: seq<Record>, r: Record, q: Query) {
    |taken| < q.maxCandidates && |RenderRecords(taken + [r])| <= q.maxBytes
  }

  /** Every candidate in turn is taken exactly when it fits what is left. */
  function Pick(ranking: seq<Candidate>, q: Query): seq<Record> {
    if ranking == [] then []
    else
      var taken := Pick(ranking[..|ranking| - 1], q);
      var r := ranking[|ranking| - 1].record;
      if Fits(taken, r, q) then taken + [r] else taken
  }

  /** What a search over valid records returns. */
  function Search(records: seq<Record>, q: Query): seq<Record> { Pick(Ranking(records, q), q) }

  predicate Subsequence(a: seq<Record>, b: seq<Candidate>) {
    a == [] || (b != [] &&
      if a[|a| - 1] == b[|b| - 1].record && Subsequence(a[..|a| - 1], b[..|b| - 1]) then true
      else Subsequence(a, b[..|b| - 1]))
  }

  /** The selection keeps the ranking's order, respects both budgets, and is cut short exactly
      when it omits a candidate. */
  lemma {:induction false} PickWithinBudgets(ranking: seq<Candidate>, q: Query)
    ensures var picked := Pick(ranking, q);
            Subsequence(picked, ranking) && |picked| <= |ranking| && |picked| <= q.maxCandidates
            && |RenderRecords(picked)| <= q.maxBytes
  {
    if ranking != [] {
      PickWithinBudgets(ranking[..|ranking| - 1], q);
      var taken := Pick(ranking[..|ranking| - 1], q);
      assert (taken + [ranking[|ranking| - 1].record])[..|taken|] == taken;
    }
  }

  lemma {:induction false} PickedMembers(ranking: seq<Candidate>, q: Query, r: Record)
    requires r in Pick(ranking, q)
    ensures exists c :: c in ranking && c.record == r
  {
    hide Fits;
    var n := |ranking| - 1;
    assert ranking[n] in ranking;
    if r in Pick(ranking[..n], q) {
      PickedMembers(ranking[..n], q, r);
    }
  }

  /** A search returns only stored records. */
  lemma SearchedAreStored(records: seq<Record>, q: Query, r: Record)
    requires Distinct(records) && r in Search(records, q)
    ensures r in records && Allowed(r, q)
  {
    PickedMembers(Ranking(records, q), q, r);
    var c :| c in Ranking(records, q) && c.record == r;
    RankingIsSorted(records, q, c);
  }

  lemma PickStep(ranking: seq<Candidate>, q: Query, i: nat)
    requires i < |ranking|
    ensures var before := Pick(ranking[..i], q); var r := ranking[i].record;
            Pick(ranking[..i + 1], q) == if Fits(before, r, q) then before + [r] else before
  {
    hide Fits;
    var upTo := ranking[..i + 1];
    assert upTo[..|upTo| - 1] == ranking[..i] && upTo[|upTo| - 1] == ranking[i];
  }

  lemma {:induction false} PickGrows(ranking: seq<Candidate>, q: Query, i: nat)
    requires i <= |ranking|
    ensures Pick(ranking[..i], q) <= Pick(ranking, q)
  {
    hide Fits;
    if i == |ranking| {
      assert ranking[..i] == ranking;
    } else {
      var shorter := ranking[..|ranking| - 1];
      assert shorter[..i] == ranking[..i];
      PickGrows(shorter, q, i);
    }
  }

  /** Where a candidate stands in the ranking decides by itself whether it was taken: the prefix
      before it left room. Nothing after it matters. */
  lemma PickPrefix(ranking: seq<Candidate>, q: Query, i: nat)
    requires i < |ranking|
    ensures var before := Pick(ranking[..i], q); var r := ranking[i].record;
            before <= (if Fits(before, r, q) then before + [r] else before) == Pick(ranking[..i + 1], q)
            && Pick(ranking[..i + 1], q) <= Pick(ranking, q)
  {
    PickStep(ranking, q, i);
    PickGrows(ranking, q, i + 1);
  }

  /** A search does not depend on the order in which the file stores its records. */
  lemma SearchIsCanonical(a: seq<Record>, b: seq<Record>, q: Query)
    requires multiset(a) == multiset(b) && Distinct(a)
    ensures Search(a, q) == Search(b, q)
  {
    CandidatesPermute(a, b, q);
    BeforeIsStrictTotal(a, q);
    SortPermutation(Candidates(a, q), Candidates(b, q), Before);
  }

  /** The ranking is sorted by the comparator and lists exactly the allowed records. */
  lemma RankingIsSorted(records: seq<Record>, q: Query, c: Candidate)
    requires Distinct(records)
    ensures SortedBy(Before, Ranking(records, q))
    ensures c in Ranking(records, q) <==> c.record in records && Allowed(c.record, q) && c == Ranked(c.record, q)
  {
    BeforeIsStrictTotal(records, q);
    SortSorts(Candidates(records, q), Before);
    CandidateMembers(records, q, c);
    SameElements(Candidates(records, q), Ranking(records, q));
    assert c in Elements(Ranking(records, q)) <==> c in Elements(Candidates(records, q));
  }

  /** A record takes part in a search exactly when it has not expired, is of the scope and category
      asked for, and belongs to the user or to the workspace or repository of the query. */
  lemma ListedExactlyWhen(records: seq<Record>, q: Query, r: Record)
    requires Distinct(records)
    ensures (exists c :: c in Ranking(records, q) && c.record == r) <==>
            && r in records
            && (r.content.expires.Some? ==> q.now < r.content.expires.value)
            && (q.scope.Some? ==> r.content.scope == q.scope.value)
            && (q.category.Some? ==> r.content.category == q.category.value)
            && (r.content.scope == Workspace ==> q.workspaceID != "" && r.content.scopeID == q.workspaceID)
            && (r.content.scope == Repository ==> q.repositoryID != "" && r.content.scopeID == q.repositoryID)
  {
    RankingIsSorted(records, q, Ranked(r, q));
    if exists c :: c in Ranking(records, q) && c.record == r {
      var c :| c in Ranking(records, q) && c.record == r;
      RankingIsSorted(records, q, c);
    }
  }

  /** Earlier in the ranking is before in the comparator's order. */
  lemma EarlierIsBefore(records: seq<Record>, q: Query, i: nat, j: nat)
    requires Distinct(records) && i < j < |Ranking(records, q)|
    ensures var ranking := Ranking(records, q);
            && Before(ranking[i], ranking[j]) && !Before(ranking[j], ranking[i])
            && ranking[i] == Ranked(ranking[i].record, q) && ranking[j] == Ranked(ranking[j].record, q)
            && ranking[i].record.id != ranking[j].record.id
  {
    hide Before, Candidates;
    var ranking := Ranking(records, q);
    var a, b := ranking[i], ranking[j];
    BeforeIsStrictTotal(records, q);
    RankingIsSorted(records, q, a);
    RankingIsSorted(records, q, b);
    SortedAt(Before, ranking, i, j);
    SameElements(Candidates(records, q), ranking);
    assert a in Elements(Candidates(records, q)) && b in Elements(Candidates(records, q));
    RankingIsDistinct(records, q, i, j);
    if a.record.id == b.record.id { DistinctById(records, a.record, b.record); }
  }

  lemma {:induction false} CandidatesDistinct(records: seq<Record>, q: Query, c: Candidate)
    requires Distinct(records)
    ensures multiset(Candidates(records, q))[c] <= 1
  {
    if records != [] {
      CandidatesDistinct(records[1..], q, c);
      var head := if Allowed(records[0], q) then [Ranked(records[0], q)] else [];
      assert Candidates(records, q) == head + Candidates(records[1..], q);
      if c == Ranked(records[0], q) {
        CandidateMembers(records[1..], q, c);
        assert c !in Candidates(records[1..], q);
        assert c !in multiset(Candidates(records[1..], q));
      }
    }
  }

  lemma RankingIsDistinct(records: seq<Record>, q: Query, i: nat, j: nat)
    requires Distinct(records) && i < j < |Ranking(records, q)|
    ensures Ranking(records, q)[i] != Ranking(records, q)[j]
  {
    var ranking := Ranking(records, q);
    var c := ranking[i];
    CandidatesDistinct(records, q, c);
    assert multiset(ranking)[c] <= 1;
    if ranking[i] == ranking[j] {
      DuplicateCount(ranking, i, j);
    }
  }

  function Score(q: Query, id: string): nat { if id in q.scores then q.scores[id] else 0 }

  /** Of two unpinned records the one of the narrower scope comes first; within a scope the better
      match, then the one updated later, then the smaller ID. */
  lemma UnpinnedOrder(records: seq<Record>, q: Query, i: nat, j: nat)
    requires Distinct(records) && i < |Ranking(records, q)| && j < |Ranking(records, q)| && i != j
    requires Ranking(records, q)[i].record.id !in q.pinned && Ranking(records, q)[j].record.id !in q.pinned
    ensures var a, b := Ranking(records, q)[i].record, Ranking(records, q)[j].record;
            i < j <==>
              if a.content.scope != b.content.scope then a.content.scope == Workspace || b.content.scope == User
              else if Score(q, a.id) != Score(q, b.id) then Score(q, a.id) > Score(q, b.id)
              else if a.updated != b.updated then a.updated > b.updated
              else Less(a.id, b.id)
  {
    hide Ranking;
    if i < j {
      EarlierIsBefore(records, q, i, j);
    } else {
      EarlierIsBefore(records, q, j, i);
    }
    LessTotal(Ranking(records, q)[i].record.id, Ranking(records, q)[j].record.id);
  }

  /** Without repeated pins every pinned record in the ranking comes before the others, and they
      stand in the order of the pins. */
  lemma PinnedOrder(records: seq<Record>, q: Query, i: nat, j: nat, x: nat)
    requires Distinct(records) && i < |Ranking(records, q)| && j < |Ranking(records, q)| && i != j
    requires forall a, b | 0 <= a < b < |q.pinned| :: q.pinned[a] != q.pinned[b]
    requires x < |q.pinned| && q.pinned[x] == Ranking(records, q)[i].record.id
    ensures i < j <==> forall y | 0 <= y < |q.pinned| && q.pinned[y] == Ranking(records, q)[j].record.id :: x < y
  {
    hide Ranking, BeforeUnpinned;
    DistinctPinsCount(q.pinned);
    if i < j {
      EarlierIsBefore(records, q, i, j);
    } else {
      EarlierIsBefore(records, q, j, i);
    }
    var b := Ranking(records, q)[j].record.id;
    var last := LastIndex(q.pinned, b);
    assert LastIndex(q.pinned, q.pinned[x]).value == x;
    assert last.Some? ==> q.pinned[last.value] == b;
  }

  /** A candidate fits when there is room for one more record and for the bytes it adds. */
  lemma FitsExactlyWhen(taken: seq<Record>, r: Record, q: Query)
    ensures Fits(taken, r, q) <==>
            && |taken| < q.maxCandidates
            && |RenderRecords(taken)| + (if taken == [] then 0 else 1) + |RenderRecord(r)| <= q.maxBytes
  {
    RenderAppend(taken, r);
  }

  /** A record is rendered on one line, with the names of its scope and category. */
  lemma RenderedLine(r: Record, scope: string, category: string)
    requires scope == match r.content.scope
                      case User => "user"
                      case Workspace => "workspace"
                      case Repository => "repository"
    requires category == match r.content.category
                         case Preference => "preference"
                         case Convention => "convention"
                         case Fact => "fact"
    ensures RenderRecord(r) == "- id=" + r.id + " scope=" + scope + " category=" + category + ": " + r.content.text
  {
  }

  // ------------------------------------------------------------------- pinning

  /** A pinned candidate ranks before an unpinned one exactly when its last position is at most
      the number of distinct pins, or one more and it would rank before it without any pins. */
  lemma PinnedPrecedesExactlyWhen(q: Query, pinned: Record, other: Record)
    requires pinned.id in q.pinned && other.id !in q.pinned
    ensures var last := LastIndex(q.pinned, pinned.id).value; var distinct := |DistinctPins(q.pinned)|;
            Before(Ranked(pinned, q), Ranked(other, q)) <==>
              last <= distinct
              || (last == distinct + 1
                  && Before(Ranked(pinned, q.(pinned := [])), Ranked(other, q.(pinned := []))))
  {
    assert LastIndex([], pinned.id).None? && LastIndex([], other.id).None?;
  }

  lemma {:induction false} DistinctPinsCount(pins: seq<string>)
    requires forall i, j | 0 <= i < j < |pins| :: pins[i] != pins[j]
    ensures |DistinctPins(pins)| == |pins|
  {
    if pins != [] {
      var n := |pins| - 1;
      DistinctPinsCount(pins[..n]);
      assert DistinctPins(pins) == DistinctPins(pins[..n]) + {pins[n]};
      assert pins[n] !in pins[..n];
    }
  }

  /** Without repeated pins every pinned record comes first, in the order of the pins. */
  lemma DistinctPinsComeFirst(q: Query, pinned: Record, other: Record)
    requires forall i, j | 0 <= i < j < |q.pinned| :: q.pinned[i] != q.pinned[j]
    requires pinned.id in q.pinned && (other.id in q.pinned ==>
               LastIndex(q.pinned, pinned.id).value < LastIndex(q.pinned, other.id).value)
    ensures Before(Ranked(pinned, q), Ranked(other, q))
  {
    DistinctPinsCount(q.pinned);
  }

  /** Repeated pins can push a pinned record behind an unpinned one. */
  lemma RepeatedPinsDemote(q: Query, pinned: Record, other: Record)
    requires q.pinned == ["a", "a", "a", "a", "b"] && pinned.id == "b" && other.id == "c"
    ensures Before(Ranked(other, q), Ranked(pinned, q))
  {
    assert DistinctPins(q.pinned) == {"a", "b"};
    assert q.pinned[4] == "b";
    assert LastIndex(q.pinned, "b") == Some(4);
  }

  // ---------------------------------------------------------------- the search

  /** The map the search builds: the last position of every pin. */
  method PinPositions(pins: seq<string>) returns (positions: map<string, nat>)
    ensures positions.Keys == DistinctPins(pins)
    ensures forall id | id in positions :: LastIndex(pins, id) == Some(positions[id])
  {
    positions := map[];
    for index := 0 to |pins|
      invariant positions.Keys == DistinctPins(pins[..index])
      invariant forall id | id in positions :: LastIndex(pins[..index], id) == Some(positions[id])
    {
      assert pins[..index + 1] == pins[..index] + [pins[index]];
      positions := positions[pins[index] := index];
    }
    assert pins[..|pins|] == pins;
  }

  method CollectCandidates(records: seq<Record>, q: Query) returns (candidates: seq<Candidate>)
    ensures candidates == Candidates(records, q)
  {
    var pinned := PinPositions(q.pinned);
    candidates := [];
    for index := 0 to |records|
      invariant candidates == Candidates(records[..index], q)
    {
      var record := records[index];
      assert records[..index + 1] == records[..index] + [record];
      CandidatesConcat(records[..index], [record], q);
      if Allowed(record, q) {
        var pinRank := |pinned.Keys| + 1;
        if record.id in pinned { pinRank := pinned[record.id]; }
        candidates := candidates + [Candidate(record, pinRank, ScopeRank(record.content.scope),
                                              if record.id in q.scores then q.scores[record.id] else 0)];
      }
    }
    assert records[..|records|] == records;
  }

  /** The greedy loop: it stops at the count and skips what exceeds the bytes left. */
  method SelectRecords(ranking: seq<Candidate>, q: Query) returns (result: seq<Record>, truncated: bool)
    ensures result == Pick(ranking, q)
    ensures truncated <==> |result| < |ranking|
  {
    hide Pick, RenderRecord;
    PickNothing(q);
    result, truncated := [], false;
    var bytesUsed := 0;
    for index := 0 to |ranking|
      invariant result == Pick(ranking[..index], q) && bytesUsed == |RenderRecords(result)|
      invariant |result| <= index && |result| <= q.maxCandidates
      invariant truncated <==> |result| < index
    {
      if |result| == q.maxCandidates {
        FullPick(ranking, q, index);
        truncated := true;
        return;
      }
      var record := ranking[index].record;
      PickStep(ranking, q, index);
      RenderAppend(result, record);
      var size := |RenderRecord(record)|;
      if |result| != 0 { size := size + 1; }
      if bytesUsed + size > q.maxBytes {
        truncated := true;
      } else {
        result := result + [record];
        bytesUsed := bytesUsed + size;
      }
    }
    assert ranking[..|ranking|] == ranking;
  }

  lemma PickNothing(q: Query)
    ensures Pick([], q) == []
  {
  }

  lemma {:induction false} FullPick(ranking: seq<Candidate>, q: Query, i: nat)
    requires i <= |ranking| && |Pick(ranking[..i], q)| == q.maxCandidates
    ensures Pick(ranking, q) == Pick(ranking[..i], q)
  {
    hide RenderRecords;
    if i == |ranking| {
      assert ranking[..i] == ranking;
    } else {
      var shorter := ranking[..|ranking| - 1];
      assert shorter[..i] == ranking[..i];
      FullPick(shorter, q, i);
    }
  }

  method SearchRecords(records: seq<Record>, q: Query) returns (result: seq<Record>, candidates: nat, truncated: bool)
    ensures result == Search(records, q)
    ensures candidates == |Ranking(records, q)| && (truncated <==> |result| < candidates)
  {
    var found := CollectCandidates(records, q);
    var ranking := Sort(found, Before);
    result, truncated := SelectRecords(ranking, q);
    candidates := |ranking|;
  }
}
