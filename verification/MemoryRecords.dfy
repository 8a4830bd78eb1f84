/** internal/adapter/memory/records.go: the durable record file, its locked read-modify-write
    operations and what any number of processes sharing it can rely on. */
module MemoryRecords {
  import opened Common
  import opened Ordering

  datatype Scope = User | Workspace | Repository

  datatype Category = Preference | Convention | Fact

  /** What a record's digest covers. The hash is injective, so the content stands for its digest. */
  datatype Content = Content(
    scope: Scope, scopeID: string, category: Category, text: string, source: string, expires: Option<int>)

  datatype Record = Record(id: string, content: Content, created: int, updated: int)

  /** What a record's ID is a hash of. */
  datatype Identity = Identity(content: Content, created: int)

  datatype File = File(generation: nat, records: seq<Record>)

  /** The scope identities a Store is bound to. */
  datatype Binding = Binding(workspaceID: string, repositoryID: string)

  datatype Request =
    | Remember(content: Content)
    | Update(id: string, text: string, category: Option<Category>, expires: Option<Option<int>>)
    | Forget(id: string)

  datatype Reply =
    | Created(record: Record) | Existing(record: Record) | Updated(record: Record)
    | Forgotten | NotFound | Duplicate

  const MAX_FILE_BYTES := 0x10_0000
  const MAX_NOTE_BYTES := 2048
  const MAX_SOURCE_BYTES := 256
  const MAX_SCOPE_ID_BYTES := 4096

  const NO_RECORDS := File(0, [])

  // ---------------------------------------------------------------- the file

  predicate ScopeIdentified(c: Content) { c.scope == User <==> c.scopeID == "" }

  predicate ValidRecord(r: Record) {
    r.id != "" && r.content.text != "" && r.content.source != "" && r.created <= r.updated && ScopeIdentified(r.content)
  }

  /** No two records share an ID or a digest. */
  predicate Distinct(records: seq<Record>) {
    records == [] || (Apart(records[0], records[1..]) && Distinct(records[1..]))
  }

  predicate Apart(r: Record, others: seq<Record>) {
    forall o | o in others :: o.id != r.id && o.content != r.content
  }

  predicate ValidFile(f: File) {
    && (f.generation == 0 ==> f.records == [])
    && (forall r | r in f.records :: ValidRecord(r))
    && Distinct(f.records)
  }

  predicate Visible(b: Binding, c: Content) {
    match c.scope
    case User => true
    case Workspace => b.workspaceID != "" && c.scopeID == b.workspaceID
    case Repository => b.repositoryID != "" && c.scopeID == b.repositoryID
  }

  predicate IdBefore(a: Record, b: Record) { Less(a.id, b.id) }

  /** The order in which a save writes the records. */
  function Sorted(records: seq<Record>): seq<Record> { Sort(records, IdBefore) }

  function FindContent(records: seq<Record>, c: Content): (r: Option<nat>)
    ensures r.Some? ==> r.value < |records| && records[r.value].content == c
    ensures r.None? ==> forall o | o in records :: o.content != c
  {
    if records == [] then None
    else if records[0].content == c then Some(0)
    else
      assert records == [records[0]] + records[1..];
      var r := FindContent(records[1..], c);
      if r.None? then None else Some(r.value + 1)
  }

  function FindVisible(records: seq<Record>, b: Binding, id: string): (r: Option<nat>)
    ensures r.Some? ==> r.value < |records| && records[r.value].id == id && Visible(b, records[r.value].content)
    ensures r.None? ==> forall o | o in records :: o.id != id || !Visible(b, o.content)
  {
    if records == [] then None
    else if records[0].id == id && Visible(b, records[0].content) then Some(0)
    else
      assert records == [records[0]] + records[1..];
      var r := FindVisible(records[1..], b, id);
      if r.None? then None else Some(r.value + 1)
  }

  function UpdatedRecord(r: Record, u: Request, now: int): Record
    requires u.Update?
  {
    r.(updated := now,
       content := r.content.(text := u.text,
                             category := if u.category.Some? then u.category.value else r.content.category,
                             expires := if u.expires.Some? then u.expires.value else r.content.expires))
  }

  function Without(records: seq<Record>, i: nat): seq<Record>
    requires i < |records|
  {
    records[..i] + records[i + 1..]
  }

  /** The reply, and the file to save when the request changes it. */
  function Mutate(f: File, b: Binding, request: Request, now: int, id: string): (Reply, Option<File>) {
    match request
    case Remember(content) =>
      var found := FindContent(f.records, content);
      if found.Some? then (Existing(f.records[found.value]), None)
      else
        var record := Record(id, content, now, now);
        (Created(record), Some(File(f.generation + 1, Sorted(f.records + [record]))))
    case Update(target, _, _, _) =>
      var found := FindVisible(f.records, b, target);
      if found.None? then (NotFound, None)
      else
        var record := UpdatedRecord(f.records[found.value], request, now);
        if FindContent(Without(f.records, found.value), record.content).Some? then (Duplicate, None)
        else (Updated(record), Some(File(f.generation + 1, Sorted(f.records[found.value := record]))))
    case Forget(target) =>
      var found := FindVisible(f.records, b, target);
      if found.None? then (NotFound, None)
      else (Forgotten, Some(File(f.generation + 1, Sorted(Without(f.records, found.value)))))
  }

  // ---------------------------------------------------------- what a mutation means

  /** A Store sees user records and those of the scopes it is bound to. */
  lemma VisibleExactlyWhen(b: Binding, c: Content)
    ensures Visible(b, c) <==>
            c.scope == User
            || (c.scope == Workspace && c.scopeID == b.workspaceID != "")
            || (c.scope == Repository && c.scopeID == b.repositoryID != "")
  {
  }

  /** The record at `i` is the first one visible under this ID. */
  ghost predicate FirstSeen(records: seq<Record>, b: Binding, id: string, i: nat) {
    && i < |records| && records[i].id == id && Visible(b, records[i].content)
    && forall j | 0 <= j < i :: records[j].id != id || !Visible(b, records[j].content)
  }

  /** `c` is the content of `stored` with the text, category and expiry of an update. */
  ghost predicate Rewritten(
    stored: Content, c: Content, text: string, category: Option<Category>, expires: Option<Option<int>>)
  {
    && c.text == text && c.scope == stored.scope && c.scopeID == stored.scopeID && c.source == stored.source
    && c.category == (match category
                      case Some(given) => given
                      case None => stored.category)
    && c.expires == match expires
                    case Some(given) => given
                    case None => stored.expires
  }

  /** `saved` holds these records under the next generation. */
  ghost predicate Saves(f: File, saved: Option<File>, records: multiset<Record>) {
    saved.Some? && saved.value.generation == f.generation + 1 && multiset(saved.value.records) == records
  }

  /** An update of the record at `i`: rewritten, unless another record has the new content. */
  ghost predicate UpdatesAt(
    f: File, i: nat, text: string, category: Option<Category>, expires: Option<Option<int>>, now: int, reply: Reply,
    saved: Option<File>)
    requires i < |f.records|
  {
    var stored := f.records[i];
    if reply.Updated? then
      && reply.record.id == stored.id && reply.record.created == stored.created && reply.record.updated == now
      && Rewritten(stored.content, reply.record.content, text, category, expires)
      && (forall j | 0 <= j < |f.records| && j != i :: f.records[j].content != reply.record.content)
      && Saves(f, saved, multiset(f.records) - multiset{stored} + multiset{reply.record})
    else
      && reply == Duplicate && saved.None?
      && exists j :: 0 <= j < |f.records| && j != i
                     && Rewritten(stored.content, f.records[j].content, text, category, expires)
  }

  /** The reply to a request, and what it saves. A Remember returns the record of that content or
      adds one dated now; an Update rewrites the first visible record of the ID unless another
      one has the new content; a Forget drops the first visible record of the ID. */
  ghost predicate Answers(
    f: File, b: Binding, request: Request, now: int, id: string, reply: Reply, saved: Option<File>)
  {
    match request
    case Remember(content) =>
      if forall r | r in f.records :: r.content != content then
        && reply == Created(Record(id, content, now, now))
        && Saves(f, saved, multiset(f.records) + multiset{reply.record})
      else reply.Existing? && reply.record in f.records && reply.record.content == content && saved.None?
    case Update(target, text, category, expires) =>
      if forall r | r in f.records :: r.id != target || !Visible(b, r.content) then reply == NotFound && saved.None?
      else
        exists i: nat :: FirstSeen(f.records, b, target, i)
                         && UpdatesAt(f, i, text, category, expires, now, reply, saved)
    case Forget(target) =>
      if forall r | r in f.records :: r.id != target || !Visible(b, r.content) then reply == NotFound && saved.None?
      else
        && reply == Forgotten
        && exists i: nat :: FirstSeen(f.records, b, target, i)
                            && Saves(f, saved, multiset(f.records) - multiset{f.records[i]})
  }

  lemma {:induction false} FoundFirst(records: seq<Record>, b: Binding, id: string)
    ensures FindVisible(records, b, id).Some? ==> FirstSeen(records, b, id, FindVisible(records, b, id).value)
    ensures FindVisible(records, b, id).None? <==>
            forall r | r in records :: r.id != id || !Visible(b, r.content)
  {
    hide Visible;
    if records != [] {
      FoundFirst(records[1..], b, id);
      assert records == [records[0]] + records[1..];
    }
  }

  lemma WithoutMultiset(records: seq<Record>, i: nat)
    requires i < |records|
    ensures multiset(Without(records, i)) == multiset(records) - multiset{records[i]}
  {
    assert records == records[..i] + [records[i]] + records[i + 1..];
  }

  lemma ReplacedMultiset(records: seq<Record>, i: nat, r: Record)
    requires i < |records|
    ensures multiset(records[i := r]) == multiset(records) - multiset{records[i]} + multiset{r}
  {
    assert records == records[..i] + [records[i]] + records[i + 1..];
    assert records[i := r] == records[..i] + [r] + records[i + 1..];
  }

  lemma OthersThan(records: seq<Record>, i: nat, c: Content)
    requires i < |records|
    ensures FindContent(Without(records, i), c).Some? <==>
            exists j :: 0 <= j < |records| && j != i && records[j].content == c
  {
    var others := Without(records, i);
    var found := FindContent(others, c);
    if found.Some? {
      assert records[if found.value < i then found.value else found.value + 1] == others[found.value];
    }
    forall j | 0 <= j < |records| && j != i ensures records[j] in others {
      assert others[if j < i then j else j - 1] == records[j];
    }
  }

  lemma RememberAnswers(f: File, b: Binding, content: Content, now: int, id: string)
    ensures var (reply, saved) := Mutate(f, b, Remember(content), now, id);
            Answers(f, b, Remember(content), now, id, reply, saved)
  {
    var found := FindContent(f.records, content);
    assert found.Some? ==> f.records[found.value] in f.records;
  }

  lemma UpdateAnswers(f: File, b: Binding, request: Request, now: int, id: string)
    requires request.Update?
    ensures var (reply, saved) := Mutate(f, b, request, now, id); Answers(f, b, request, now, id, reply, saved)
  {
    hide Visible, FindVisible, FindContent, Sorted, UpdatesAt, FirstSeen, UpdatedRecord, Without;
    FoundFirst(f.records, b, request.id);
    var found := FindVisible(f.records, b, request.id);
    if found.Some? {
      UpdateAt(f, b, request, now, id, found.value);
    }
  }

  /** Exactly this content is the stored one rewritten. */
  lemma UpdateRewrites(stored: Record, request: Request, now: int, c: Content)
    requires request.Update?
    ensures var r := UpdatedRecord(stored, request, now);
            && r.id == stored.id && r.created == stored.created && r.updated == now
            && (Rewritten(stored.content, c, request.text, request.category, request.expires) <==> c == r.content)
  {
  }

  lemma UpdateSaves(f: File, i: nat, r: Record)
    requires i < |f.records|
    ensures Saves(f, Some(File(f.generation + 1, Sorted(f.records[i := r]))),
                  multiset(f.records) - multiset{f.records[i]} + multiset{r})
  {
    ReplacedMultiset(f.records, i, r);
    SortedMultiset(f.records[i := r]);
    hide Sorted;
  }

  lemma UpdateAt(f: File, b: Binding, request: Request, now: int, id: string, i: nat)
    requires request.Update? && FindVisible(f.records, b, request.id) == Some(i)
    ensures var (reply, saved) := Mutate(f, b, request, now, id);
            UpdatesAt(f, i, request.text, request.category, request.expires, now, reply, saved)
  {
    hide Visible, FindVisible, FindContent, Without, Sorted, UpdatedRecord, Rewritten, Saves;
    var record := UpdatedRecord(f.records[i], request, now);
    OthersThan(f.records, i, record.content);
    UpdateSaves(f, i, record);
    UpdateRewrites(f.records[i], request, now, record.content);
    forall j | 0 <= j < |f.records|
      ensures Rewritten(f.records[i].content, f.records[j].content, request.text, request.category, request.expires)
              <==> f.records[j].content == record.content
    {
      UpdateRewrites(f.records[i], request, now, f.records[j].content);
    }
  }

  lemma SortedMultiset(records: seq<Record>)
    ensures multiset(Sorted(records)) == multiset(records)
  {
  }

  lemma ForgetAnswers(f: File, b: Binding, target: string, now: int, id: string)
    ensures var (reply, saved) := Mutate(f, b, Forget(target), now, id);
            Answers(f, b, Forget(target), now, id, reply, saved)
  {
    hide Visible, FindVisible, FirstSeen, Sorted, Without, Saves;
    FoundFirst(f.records, b, target);
    var found := FindVisible(f.records, b, target);
    if found.Some? {
      ForgetSaves(f, found.value);
    }
  }

  lemma ForgetSaves(f: File, i: nat)
    requires i < |f.records|
    ensures Saves(f, Some(File(f.generation + 1, Sorted(Without(f.records, i)))),
                  multiset(f.records) - multiset{f.records[i]})
  {
    WithoutMultiset(f.records, i);
    SortedMultiset(Without(f.records, i));
    hide Sorted, Without;
  }

  /** Every mutation answers its request in that sense. */
  lemma MutateAnswers(f: File, b: Binding, request: Request, now: int, id: string)
    ensures var (reply, saved) := Mutate(f, b, request, now, id); Answers(f, b, request, now, id, reply, saved)
    ensures var (reply, saved) := Mutate(f, b, request, now, id);
            saved.Some? <==> reply.Created? || reply.Updated? || reply.Forgotten?
  {
    match request {
      case Remember(content) => RememberAnswers(f, b, content, now, id);
      case Update(_, _, _, _) => UpdateAnswers(f, b, request, now, id);
      case Forget(target) => ForgetAnswers(f, b, target, now, id);
    }
  }

  // ------------------------------------------------------- distinctness and sorting

  lemma {:induction false} InsertDistinct(r: Record, records: seq<Record>)
    requires Distinct(records) && Apart(r, records)
    ensures Distinct(Insert(r, records, IdBefore))
  {
    if records != [] {
      var rest := records[1..];
      assert records == [records[0]] + rest;
      if IdBefore(r, records[0]) {
        assert ([r] + records)[1..] == records;
      } else {
        InsertDistinct(r, rest);
        var q := Insert(r, rest, IdBefore);
        assert Apart(records[0], q) by {
          forall o | o in q ensures o.id != records[0].id && o.content != records[0].content {
            assert o in multiset(rest) + multiset{r};
          }
        }
        assert ([records[0]] + q)[1..] == q;
      }
    }
  }

  lemma {:induction false} SortedDistinct(records: seq<Record>)
    requires Distinct(records)
    ensures Distinct(Sorted(records))
    ensures forall r :: r in Sorted(records) <==> r in records
  {
    if records != [] {
      SortedDistinct(records[1..]);
      assert Apart(records[0], Sorted(records[1..]));
      InsertDistinct(records[0], Sorted(records[1..]));
    }
    SortedMembers(records);
  }

  lemma SortedMembers(records: seq<Record>)
    ensures forall r :: r in Sorted(records) <==> r in records
  {
    SameElements(records, Sorted(records));
    forall r ensures r in Sorted(records) <==> r in records {
      assert r in Elements(Sorted(records)) <==> r in Elements(records);
    }
  }

  lemma {:induction false} AppendDistinct(records: seq<Record>, r: Record)
    requires Distinct(records) && Apart(r, records)
    ensures Distinct(records + [r])
  {
    if records != [] {
      AppendDistinct(records[1..], r);
      assert (records + [r])[1..] == records[1..] + [r];
    }
  }

  lemma {:induction false} WithoutDistinct(records: seq<Record>, i: nat)
    requires Distinct(records) && i < |records|
    ensures Distinct(Without(records, i)) && Apart(records[i], Without(records, i))
    ensures forall o | o in Without(records, i) :: o in records
    ensures forall o | o in records :: o == records[i] || o in Without(records, i)
  {
    if i == 0 {
      assert Without(records, 0) == records[1..];
    } else {
      WithoutDistinct(records[1..], i - 1);
      assert Without(records, i) == [records[0]] + Without(records[1..], i - 1);
      assert records[i] == records[1..][i - 1];
      assert forall o :: o in records <==> o == records[0] || o in records[1..];
    }
  }

  lemma {:induction false} ReplaceDistinct(records: seq<Record>, i: nat, r: Record)
    requires Distinct(records) && i < |records| && Apart(r, Without(records, i))
    ensures Distinct(records[i := r])
  {
    var replaced := records[i := r];
    if i == 0 {
      assert Without(records, 0) == records[1..] == replaced[1..];
    } else {
      assert Without(records, i) == [records[0]] + Without(records[1..], i - 1);
      assert replaced[1..] == records[1..][i - 1 := r];
      ReplaceDistinct(records[1..], i - 1, r);
      assert r.id != records[0].id && r.content != records[0].content by { assert records[0] in Without(records, i); }
      forall o | o in replaced[1..] ensures o.id != records[0].id && o.content != records[0].content {
        assert o == r || o in records[1..];
      }
    }
  }

  // ---------------------------------------------------------- one locked operation

  /** The new ID is that of no stored record, as an advancing clock and an injective hash give. */
  predicate FreshId(f: File, id: string) {
    id != "" && forall r | r in f.records :: r.id != id
  }

  const NUL := 0 as char

  /** What the normalisation of a note lets through. */
  predicate NormalText(text: string) { Trimmed(text) && |text| <= MAX_NOTE_BYTES && NUL !in text }

  predicate NormalContent(c: Content) {
    && NormalText(c.text)
    && Trimmed(c.source) && |c.source| <= MAX_SOURCE_BYTES && NUL !in c.source
    && ScopeIdentified(c) && |c.scopeID| <= MAX_SCOPE_ID_BYTES && NUL !in c.scopeID
  }

  predicate Acceptable(request: Request) {
    match request
    case Remember(c) => NormalContent(c)
    case Update(_, text, _, _) => NormalText(text)
    case Forget(_) => true
  }

  /** A note has 1 to 2048 bytes, a source up to 256 and a scope ID up to 4096; only user notes are
      without one. None has a zero byte, or white space around it. */
  lemma AcceptableExactlyWhen(request: Request)
    ensures Acceptable(request) <==>
            match request
            case Remember(c) =>
              && Trimmed(c.text) && 1 <= |c.text| <= 2048 && Trimmed(c.source) && 1 <= |c.source| <= 256
              && |c.scopeID| <= 4096 && (c.scopeID == "" <==> c.scope == User)
              && forall byte | byte in c.text + c.source + c.scopeID :: byte as int != 0
            case Update(_, text, _, _) =>
              Trimmed(text) && 1 <= |text| <= 2048 && forall byte | byte in text :: byte as int != 0
            case Forget(_) => true
  {
    match request {
      case Remember(c) =>
        assert NUL in c.text + c.source + c.scopeID <==> NUL in c.text || NUL in c.source || NUL in c.scopeID;
      case _ =>
    }
  }

  lemma {:induction false} DistinctExactlyWhen(records: seq<Record>)
    ensures Distinct(records) <==>
            forall i, j | 0 <= i < j < |records| ::
              records[i].id != records[j].id && records[i].content != records[j].content
  {
    if records != [] {
      var rest := records[1..];
      DistinctExactlyWhen(rest);
      if Distinct(records) {
        forall i, j | 0 <= i < j < |records|
          ensures records[i].id != records[j].id && records[i].content != records[j].content
        {
          assert records[j] == rest[j - 1] && rest[j - 1] in rest;
          assert i > 0 ==> records[i] == rest[i - 1];
        }
      } else if Distinct(rest) {
        var o :| o in rest && (o.id == records[0].id || o.content == records[0].content);
        var j :| 0 <= j < |rest| && rest[j] == o;
        assert records[j + 1] == o;
      } else {
        var i, j :| 0 <= i < j < |rest| && (rest[i].id == rest[j].id || rest[i].content == rest[j].content);
        assert records[i + 1] == rest[i] && records[j + 1] == rest[j];
      }
    }
  }

  /** A file loads when its records are complete, dated in order and of their scope, no two share an
      ID or a content, and there are none under generation zero. */
  lemma ValidFileExactlyWhen(f: File)
    ensures ValidFile(f) <==>
            && (f.records != [] ==> f.generation > 0)
            && (forall r | r in f.records ::
                  && |r.id| > 0 && |r.content.text| > 0 && |r.content.source| > 0 && r.updated >= r.created
                  && (r.content.scope == User <==> r.content.scopeID == ""))
            && forall i, j | 0 <= i < j < |f.records| ::
                 f.records[i].id != f.records[j].id && f.records[i].content != f.records[j].content
  {
    DistinctExactlyWhen(f.records);
    hide Distinct;
  }

  lemma MutateKeepsValid(f: File, b: Binding, request: Request, now: int, id: string)
    requires ValidFile(f) && Acceptable(request)
    requires request.Remember? ==> FreshId(f, id)
    requires request.Update? ==> forall r | r in f.records :: r.created <= now
    ensures var saved := Mutate(f, b, request, now, id).1;
            saved.Some? ==> ValidFile(saved.value) && saved.value.generation == f.generation + 1
  {
    match request {
      case Remember(content) =>
        if FindContent(f.records, content).None? {
          var record := Record(id, content, now, now);
          AppendDistinct(f.records, record);
          SortedDistinct(f.records + [record]);
        }
      case Update(target, _, _, _) =>
        var found := FindVisible(f.records, b, target);
        if found.Some? {
          var record := UpdatedRecord(f.records[found.value], request, now);
          if FindContent(Without(f.records, found.value), record.content).None? {
            WithoutDistinct(f.records, found.value);
            ReplaceDistinct(f.records, found.value, record);
            SortedDistinct(f.records[found.value := record]);
            ReplacedMembers(f.records, found.value, record);
          }
        }
      case Forget(target) =>
        var found := FindVisible(f.records, b, target);
        if found.Some? {
          WithoutDistinct(f.records, found.value);
          SortedDistinct(Without(f.records, found.value));
        }
    }
  }

  lemma ReplacedMembers(records: seq<Record>, i: nat, r: Record)
    requires i < |records|
    ensures records[i] in records && r in records[i := r]
    ensures forall o | o in records[i := r] :: o == r || o in records
  {
    assert records[i := r][i] == r;
  }

  /** A clock behind a record's creation makes the update write a file that no load accepts. */
  lemma UpdateNeedsAdvancingClock(f: File, b: Binding, request: Request, now: int, id: string)
    requires ValidFile(f) && Acceptable(request) && Mutate(f, b, request, now, id).0.Updated?
    ensures ValidFile(Mutate(f, b, request, now, id).1.value) <==>
            f.records[FindVisible(f.records, b, request.id).value].created <= now
  {
    var i := FindVisible(f.records, b, request.id).value;
    var record := UpdatedRecord(f.records[i], request, now);
    WithoutDistinct(f.records, i);
    ReplaceDistinct(f.records, i, record);
    SortedDistinct(f.records[i := record]);
    ReplacedMembers(f.records, i, record);
  }

  /** Remembering writes a loadable file exactly when the derived ID is new, which two creations
      of one content at one instant are not. */
  lemma RememberNeedsFreshId(f: File, b: Binding, request: Request, now: int, id: string)
    requires ValidFile(f) && Acceptable(request) && id != "" && Mutate(f, b, request, now, id).0.Created?
    ensures ValidFile(Mutate(f, b, request, now, id).1.value) <==> FreshId(f, id)
  {
    var record := Record(id, request.content, now, now);
    if FreshId(f, id) {
      AppendDistinct(f.records, record);
      SortedDistinct(f.records + [record]);
    } else {
      var added := f.records + [record];
      var r :| r in f.records && r.id == id;
      SameElements(added, Sorted(added));
      assert r in Elements(Sorted(added)) && record in Elements(Sorted(added));
      if Distinct(Sorted(added)) {
        DistinctMembers(Sorted(added), r, record);
      }
    }
  }

  lemma {:induction false} DistinctMembers(records: seq<Record>, a: Record, b: Record)
    requires Distinct(records) && a in records && b in records && a != b
    ensures a.id != b.id && a.content != b.content
  {
    if a != records[0] && b != records[0] {
      DistinctMembers(records[1..], a, b);
    }
  }

  /** Repeating a Remember changes nothing and returns the record the first one stored. */
  lemma RememberTwice(f: File, b: Binding, content: Content, now: int, id: string, b2: Binding, later: int, id2: string)
    requires ValidFile(f) && Acceptable(Remember(content)) && FreshId(f, id)
    ensures var (first, saved) := Mutate(f, b, Remember(content), now, id);
            first.Created? || first.Existing?
    ensures var (first, saved) := Mutate(f, b, Remember(content), now, id);
            Mutate(if saved.Some? then saved.value else f, b2, Remember(content), later, id2) ==
            (Existing(first.record), None)
  {
    var (first, saved) := Mutate(f, b, Remember(content), now, id);
    if saved.Some? {
      MutateKeepsValid(f, b, Remember(content), now, id);
      var added := f.records + [first.record];
      AppendDistinct(f.records, first.record);
      SortedDistinct(added);
      assert first.record in added;
      var found := FindContent(Sorted(added), content);
      if Sorted(added)[found.value] != first.record {
        DistinctMembers(Sorted(added), Sorted(added)[found.value], first.record);
      }
    }
  }

  /** Update and Forget leave every record outside the Store's scopes, and every other record,
      as it is; nothing else appears or vanishes. */
  lemma OthersUntouched(f: File, b: Binding, request: Request, now: int, id: string, r: Record)
    requires ValidFile(f) && !request.Remember? && Mutate(f, b, request, now, id).1.Some?
    requires r.id != request.id || !Visible(b, r.content)
    ensures Visible(b, f.records[FindVisible(f.records, b, request.id).value].content)
    ensures r in f.records ==> r in Mutate(f, b, request, now, id).1.value.records
    ensures r.id != request.id && r in Mutate(f, b, request, now, id).1.value.records ==> r in f.records
  {
    var i := FindVisible(f.records, b, request.id).value;
    WithoutDistinct(f.records, i);
    if request.Update? {
      var record := UpdatedRecord(f.records[i], request, now);
      ReplaceDistinct(f.records, i, record);
      SortedDistinct(f.records[i := record]);
      ReplacedMembers(f.records, i, record);
      if r in f.records {
        var k :| 0 <= k < |f.records| && f.records[k] == r;
        assert k != i;
        assert f.records[i := record][k] == r;
      }
    } else {
      SortedDistinct(Without(f.records, i));
    }
  }
}
