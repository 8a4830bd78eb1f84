/** Processes sharing one memory root: internal/adapter/memory/records.go under its file lock.
    Each process locks, loads, computes and saves; the steps of different processes interleave. */
module MemoryStore {
  import opened Common
  import opened Ordering
  import opened MemoryRecords
  import opened MemoryEncoding

  /** A process that holds the lock, before and after it has loaded the file. */
  datatype Phase =
    | Locked(binding: Binding, request: Request)
    | Loaded(binding: Binding, request: Request, file: File)

  /** One committed mutation. */
  datatype Entry = Entry(binding: Binding, request: Request, now: int, id: string)

  /** `size` is the length of the file with its final newline; `issued` remembers which identity
      each ID was derived from. */
  datatype State = State(
    disk: File, size: nat, lock: Option<nat>, phases: map<nat, Phase>, log: seq<Entry>, clock: int,
    issued: map<string, Identity>)

  datatype Event =
    | Acquire(process: nat, binding: Binding, request: Request)
    | Load(process: nat)
    | Finish(process: nat, now: int, id: string, outcome: SaveOutcome)
    | GiveUp(process: nat)

  /** A prefix and sixteen bytes in hexadecimal. */
  predicate IsRecordID(id: string) {
    |id| == 36 && id[..4] == "mem_" && forall c | c in id[4..] :: c in "0123456789abcdef"
  }

  /** IDs are an injective function of the identity they are derived from. */
  predicate Derived(issued: map<string, Identity>, id: string, identity: Identity) {
    IsRecordID(id) && forall k | k in issued :: k == id <==> issued[k] == identity
  }

  predicate Enabled(s: State, e: Event) {
    match e
    case Acquire(p, _, request) => s.lock.None? && p !in s.phases && Acceptable(request)
    case Load(p) => p in s.phases && s.phases[p].Locked? && s.size <= MAX_FILE_BYTES && ValidFile(s.disk)
    case Finish(p, now, id, _) =>
      && p in s.phases && s.phases[p].Loaded? && s.clock < now
      && (s.phases[p].request.Remember? ==> Derived(s.issued, id, Identity(s.phases[p].request.content, now)))
    case GiveUp(p) => p in s.phases
  }

  /** Whether a save writes: the encoding is measured before its newline is added. */
  predicate Writes(file: File, outcome: SaveOutcome) { Encoded(file) <= MAX_FILE_BYTES && outcome.Wrote() }

  function Step(s: State, e: Event): State
    requires Enabled(s, e)
  {
    match e
    case Acquire(p, binding, request) => s.(lock := Some(p), phases := s.phases[p := Locked(binding, request)])
    case Load(p) =>
      var phase := s.phases[p];
      s.(phases := s.phases[p := Loaded(phase.binding, phase.request, s.disk)])
    case Finish(p, now, id, outcome) =>
      var phase := s.phases[p];
      var saved := Mutate(phase.file, phase.binding, phase.request, now, id).1;
      var t := s.(lock := None, phases := s.phases - {p}, clock := now,
                  issued := if phase.request.Remember? then s.issued[id := Identity(phase.request.content, now)]
                            else s.issued);
      if saved.Some? && Writes(saved.value, outcome) then
        t.(disk := saved.value, size := Encoded(saved.value) + 1,
           log := s.log + [Entry(phase.binding, phase.request, now, id)])
      else t
    case GiveUp(p) => s.(lock := None, phases := s.phases - {p})
  }

  // ------------------------------------------------------------- serial history

  /** The file after the mutations of a log, one after the other. */
  function Replay(log: seq<Entry>): File {
    if log == [] then NO_RECORDS
    else
      var e := log[|log| - 1];
      var before := Replay(log[..|log| - 1]);
      var saved := Mutate(before, e.binding, e.request, e.now, e.id).1;
      if saved.Some? then saved.value else before
  }

  /** Every stored record is dated by a clock that has advanced since, and its ID is derived
      from its creation. */
  ghost predicate Dated(f: File, clock: int, issued: map<string, Identity>) {
    forall r | r in f.records :: r.created <= clock && r.id in issued && issued[r.id].created == r.created
  }

  ghost predicate Normal(f: File) { forall r | r in f.records :: NormalContent(r.content) }

  ghost predicate Inv(s: State) {
    && s.disk == Replay(s.log) && s.disk.generation == |s.log| && ValidFile(s.disk)
    && s.size == (if s.log == [] then 0 else Encoded(s.disk) + 1)
    && Dated(s.disk, s.clock, s.issued) && Normal(s.disk)
    && (forall p | p in s.phases ::
          && s.lock == Some(p) && Acceptable(s.phases[p].request)
          && (s.phases[p].Loaded? ==> s.phases[p].file == s.disk))
  }

  lemma FreshByTime(s: State, content: Content, now: int, id: string)
    requires Dated(s.disk, s.clock, s.issued) && s.clock < now && Derived(s.issued, id, Identity(content, now))
    ensures FreshId(s.disk, id)
  {
    forall r | r in s.disk.records ensures r.id != id {
      assert r.id in s.issued && s.issued[r.id].created <= s.clock;
    }
  }

  lemma RememberedMember(f: File, b: Binding, content: Content, now: int, id: string, r: Record)
    requires Mutate(f, b, Remember(content), now, id).1.Some?
    requires r in Mutate(f, b, Remember(content), now, id).1.value.records
    ensures r in f.records || r == Record(id, content, now, now)
  {
    var added := f.records + [Record(id, content, now, now)];
    SameElements(added, Sorted(added));
    assert r in Elements(added);
  }

  lemma UpdatedMember(f: File, b: Binding, request: Request, now: int, id: string, r: Record)
    requires ValidFile(f) && request.Update? && Mutate(f, b, request, now, id).1.Some?
    requires r in Mutate(f, b, request, now, id).1.value.records
    ensures r in f.records || exists o :: o in f.records && r == UpdatedRecord(o, request, now)
  {
    var i := FindVisible(f.records, b, request.id).value;
    var replaced := f.records[i := UpdatedRecord(f.records[i], request, now)];
    SameElements(replaced, Sorted(replaced));
    assert r in Elements(replaced);
    ReplacedMembers(f.records, i, UpdatedRecord(f.records[i], request, now));
    assert f.records[i] in f.records;
  }

  lemma ForgottenMember(f: File, b: Binding, target: string, now: int, id: string, r: Record)
    requires ValidFile(f) && Mutate(f, b, Forget(target), now, id).1.Some?
    requires r in Mutate(f, b, Forget(target), now, id).1.value.records
    ensures r in f.records
  {
    var i := FindVisible(f.records, b, target).value;
    WithoutDistinct(f.records, i);
    SortedDistinct(Without(f.records, i));
  }

  /** A saved record was stored before, created now, or updated from a stored one of its ID. */
  lemma MutatedMember(f: File, b: Binding, request: Request, now: int, id: string, r: Record)
    requires ValidFile(f) && Mutate(f, b, request, now, id).1.Some?
    requires r in Mutate(f, b, request, now, id).1.value.records
    ensures r in f.records
            || (request.Remember? && r == Record(id, request.content, now, now))
            || (request.Update? && exists o :: o in f.records && r == UpdatedRecord(o, request, now))
  {
    hide Mutate, ValidFile;
    match request {
      case Remember(content) => RememberedMember(f, b, content, now, id, r);
      case Update(_, _, _, _) => UpdatedMember(f, b, request, now, id, r);
      case Forget(target) => ForgottenMember(f, b, target, now, id, r);
    }
  }

  lemma DatedKept(s: State, b: Binding, request: Request, now: int, id: string)
    requires ValidFile(s.disk) && Dated(s.disk, s.clock, s.issued) && Acceptable(request) && s.clock < now
    requires request.Remember? ==> Derived(s.issued, id, Identity(request.content, now))
    ensures var saved := Mutate(s.disk, b, request, now, id).1;
            var issued := if request.Remember? then s.issued[id := Identity(request.content, now)] else s.issued;
            && Dated(s.disk, now, issued)
            && (saved.Some? ==> ValidFile(saved.value) && saved.value.generation == s.disk.generation + 1
                                && Dated(saved.value, now, issued))
  {
    if request.Remember? { FreshByTime(s, request.content, now, id); }
    MutateKeepsValid(s.disk, b, request, now, id);
    hide Mutate, ValidFile;
    var saved := Mutate(s.disk, b, request, now, id).1;
    var issued := if request.Remember? then s.issued[id := Identity(request.content, now)] else s.issued;
    if saved.Some? {
      forall r | r in saved.value.records
        ensures r.created <= now && r.id in issued && issued[r.id].created == r.created
      {
        MutatedMember(s.disk, b, request, now, id, r);
      }
    }
  }

  lemma NormalKept(f: File, b: Binding, request: Request, now: int, id: string)
    requires ValidFile(f) && Normal(f) && Acceptable(request) && Mutate(f, b, request, now, id).1.Some?
    ensures Normal(Mutate(f, b, request, now, id).1.value)
  {
    hide Mutate, ValidFile, NormalText;
    var saved := Mutate(f, b, request, now, id).1.value;
    forall r | r in saved.records ensures NormalContent(r.content) {
      MutatedMember(f, b, request, now, id, r);
    }
  }

  lemma FinishKeepsInvariant(s: State, e: Event)
    requires Inv(s) && Enabled(s, e) && e.Finish?
    ensures Inv(Step(s, e))
  {
    hide Mutate, ValidFile, Dated, Normal, Encoded, Derived;
    var phase := s.phases[e.process];
    DatedKept(s, phase.binding, phase.request, e.now, e.id);
    if Mutate(s.disk, phase.binding, phase.request, e.now, e.id).1.Some? {
      NormalKept(s.disk, phase.binding, phase.request, e.now, e.id);
    }
    var t := Step(s, e);
    if t.log != s.log {
      assert t.log[..|t.log| - 1] == s.log;
    }
  }

  lemma StepKeepsInvariant(s: State, e: Event)
    requires Inv(s) && Enabled(s, e)
    ensures Inv(Step(s, e))
  {
    hide Mutate, ValidFile, Dated, Normal, Encoded, Derived, Replay, Acceptable;
    if e.Finish? {
      FinishKeepsInvariant(s, e);
    }
  }

  function Start(): State { State(NO_RECORDS, 0, None, map[], [], 0, map[]) }

  predicate Run(s: State, events: seq<Event>, t: State)
    decreases events
  {
    if events == [] then s == t
    else Enabled(s, events[0]) && Run(Step(s, events[0]), events[1..], t)
  }

  lemma {:induction false} RunKeepsInvariant(s: State, events: seq<Event>, t: State)
    requires Inv(s) && Run(s, events, t)
    ensures Inv(t)
    decreases events
  {
    hide Inv;
    if events != [] {
      StepKeepsInvariant(s, events[0]);
      RunKeepsInvariant(Step(s, events[0]), events[1..], t);
    }
  }

  /** No lost updates: in every interleaving the file is what the committed mutations give one
      after the other, one generation each, and no record ID or digest is ever repeated. */
  lemma NoLostUpdates(events: seq<Event>, t: State)
    requires Run(Start(), events, t)
    ensures t.disk == Replay(t.log) && t.disk.generation == |t.log|
    ensures Distinct(t.disk.records)
  {
    RunKeepsInvariant(Start(), events, t);
  }

  /** Every text that gets into a file has been normalised. */
  lemma StoredAreNormal(events: seq<Event>, t: State)
    requires Run(Start(), events, t)
    ensures Normal(t.disk) && Distinct(t.disk.records)
  {
    RunKeepsInvariant(Start(), events, t);
  }

  /** A reply is the one the serial history up to that point gives. */
  lemma RepliesAreSerial(events: seq<Event>, s: State, p: nat, now: int, id: string)
    requires Run(Start(), events, s) && p in s.phases && s.phases[p].Loaded?
    ensures var phase := s.phases[p];
            Mutate(phase.file, phase.binding, phase.request, now, id) ==
            Mutate(Replay(s.log), phase.binding, phase.request, now, id)
  {
    RunKeepsInvariant(Start(), events, s);
  }

  /** What an event that ends an operation is to save. */
  function Saves(s: State, e: Event): Option<File>
    requires Enabled(s, e) && e.Finish?
  {
    var phase := s.phases[e.process];
    Mutate(s.disk, phase.binding, phase.request, e.now, e.id).1
  }

  lemma MutateRaises(f: File, b: Binding, request: Request, now: int, id: string)
    ensures var saved := Mutate(f, b, request, now, id).1; saved.Some? ==> saved.value.generation == f.generation + 1
  {
  }

  /** Only an effective mutation raises the generation, and by one. */
  lemma GenerationCountsCommits(s: State, e: Event)
    requires Inv(s) && Enabled(s, e)
    ensures var t := Step(s, e);
            if e.Finish? && Saves(s, e).Some? && Writes(Saves(s, e).value, e.outcome)
            then t.disk.generation == s.disk.generation + 1
            else t.disk == s.disk
  {
    hide Mutate, ValidFile, Encoded, Normal, Dated;
    if e.Finish? {
      var phase := s.phases[e.process];
      assert phase.file == s.disk;
      MutateRaises(s.disk, phase.binding, phase.request, e.now, e.id);
    }
  }

  // ------------------------------------------------------------------ size limit

  /** Whether the file on disk can still be loaded. */
  predicate Loadable(s: State) { s.size <= MAX_FILE_BYTES }

  /** A save measures the encoding before its newline, a load after it: a step keeps the file
      loadable unless it writes an effective mutation of exactly MAX_FILE_BYTES. */
  lemma CommitStaysLoadable(s: State, e: Event)
    requires Inv(s) && Loadable(s) && Enabled(s, e)
    ensures Loadable(Step(s, e)) <==>
            !(e.Finish? && e.outcome.Wrote() && Saves(s, e).Some? && Encoded(Saves(s, e).value) == MAX_FILE_BYTES)
  {
    hide Encoded, Mutate, ValidFile;
    if e.Finish? {
      assert s.phases[e.process].file == s.disk;
    }
  }

  /** From then on nothing is committed any more, whatever the processes do. */
  lemma {:induction false} UnloadableForever(s: State, events: seq<Event>, t: State)
    requires Inv(s) && !Loadable(s) && Run(s, events, t)
    requires forall p | p in s.phases :: s.phases[p].Locked?
    ensures t.disk == s.disk && t.size == s.size && t.log == s.log
    decreases events
  {
    if events != [] {
      StepKeepsInvariant(s, events[0]);
      UnloadableForever(Step(s, events[0]), events[1..], t);
    }
  }

  // -------------------------------------------------------------- the operations

  /** The records file. */
  class RecordsFile {
    var file: File
    var size: nat

    constructor ()
      ensures file == NO_RECORDS && size == 0
    {
      file, size := NO_RECORDS, 0;
    }

    method Save(next: File, outcome: SaveOutcome) returns (ok: bool)
      modifies this
      ensures if Writes(next, outcome) then file == next && size == Encoded(next) + 1
              else file == old(file) && size == old(size)
      ensures ok <==> Encoded(next) <= MAX_FILE_BYTES && outcome == Saved
    {
      var encoded := Encoded(next);
      if encoded > MAX_FILE_BYTES || outcome == NotSaved { return false; }
      file, size := next, encoded + 1;
      ok := outcome == Saved;
    }
  }

  /** One process's handle, holding the lock during each call. */
  class Store {
    const records: RecordsFile
    var binding: Binding

    constructor (records: RecordsFile, binding: Binding)
      ensures this.records == records && this.binding == binding
    {
      this.records, this.binding := records, binding;
    }

    method LoadRecords() returns (file: Option<File>)
      ensures file == if records.size <= MAX_FILE_BYTES && ValidFile(records.file) then Some(records.file) else None
    {
      if records.size > MAX_FILE_BYTES || !ValidFile(records.file) { return None; }
      file := Some(records.file);
    }

    /** The three operations, each under the lock of the root. */
    method Remember(content: Content, now: int, id: string, outcome: SaveOutcome) returns (reply: Option<Reply>)
      modifies records
      ensures Served(reply, old(records.file), old(records.size), records.file, records.size, binding,
                     MemoryRecords.Remember(content), now, id, outcome)
      ensures Told(reply, old(records.file), records.file, binding, MemoryRecords.Remember(content), now, id)
    {
      hide Served, Told;
      reply := RememberLocked(content, now, id, outcome);
      ServedTells(reply, old(records.file), old(records.size), records.file, records.size, binding,
                  MemoryRecords.Remember(content), now, id, outcome);
    }

    method Update(request: Request, now: int, outcome: SaveOutcome) returns (reply: Option<Reply>)
      requires request.Update?
      modifies records
      ensures Served(reply, old(records.file), old(records.size), records.file, records.size, binding, request, now, "",
                     outcome)
      ensures Told(reply, old(records.file), records.file, binding, request, now, "")
    {
      hide Served, Told;
      reply := UpdateLocked(request, now, outcome);
      ServedTells(reply, old(records.file), old(records.size), records.file, records.size, binding, request, now, "",
                  outcome);
    }

    method Forget(id: string, outcome: SaveOutcome) returns (reply: Option<Reply>)
      modifies records
      ensures Served(reply, old(records.file), old(records.size), records.file, records.size, binding,
                     MemoryRecords.Forget(id), 0, "", outcome)
      ensures Told(reply, old(records.file), records.file, binding, MemoryRecords.Forget(id), 0, "")
    {
      hide Served, Told;
      reply := ForgetLocked(id, outcome);
      ServedTells(reply, old(records.file), old(records.size), records.file, records.size, binding,
                  MemoryRecords.Forget(id), 0, "", outcome);
    }

    method RememberLocked(content: Content, now: int, id: string, outcome: SaveOutcome)
      returns (reply: Option<Reply>)
      modifies records
      ensures Served(reply, old(records.file), old(records.size), records.file, records.size, binding,
                     MemoryRecords.Remember(content), now, id, outcome)
    {
      hide ValidFile, FindContent, Sorted;
      var loaded := LoadRecords();
      if loaded.None? { return None; }
      var file := loaded.value;
      var index := FirstOfContent(file.records, content);
      if index.Some? { return Some(Existing(file.records[index.value])); }
      var record := Record(id, content, now, now);
      var ok := records.Save(File(file.generation + 1, Sorted(file.records + [record])), outcome);
      reply := if ok then Some(Created(record)) else None;
    }

    method UpdateLocked(request: Request, now: int, outcome: SaveOutcome) returns (reply: Option<Reply>)
      requires request.Update?
      modifies records
      ensures Served(reply, old(records.file), old(records.size), records.file, records.size, binding,
                     request, now, "", outcome)
    {
      hide ValidFile, FindContent, FindVisible, Sorted, UpdatedRecord, Encoded, Visible;
      var loaded := LoadRecords();
      if loaded.None? { return None; }
      var file := loaded.value;
      var index := FirstVisible(file.records, request.id);
      if index.None? { return Some(NotFound); }
      var record := UpdatedRecord(file.records[index.value], request, now);
      var duplicate := HasDuplicate(file.records, index.value, record.content);
      if duplicate { return Some(Duplicate); }
      var ok := records.Save(File(file.generation + 1, Sorted(file.records[index.value := record])), outcome);
      reply := if ok then Some(Updated(record)) else None;
    }

    method ForgetLocked(id: string, outcome: SaveOutcome) returns (reply: Option<Reply>)
      modifies records
      ensures Served(reply, old(records.file), old(records.size), records.file, records.size, binding,
                     MemoryRecords.Forget(id), 0, "", outcome)
    {
      var loaded := LoadRecords();
      if loaded.None? { return None; }
      var file := loaded.value;
      var index := FirstVisible(file.records, id);
      if index.None? { return Some(NotFound); }
      var kept := file.records[..index.value] + file.records[index.value + 1..];
      var ok := records.Save(File(file.generation + 1, Sorted(kept)), outcome);
      reply := if ok then Some(Forgotten) else None;
    }

    /** The digest search of Remember. */
    method FirstOfContent(stored: seq<Record>, content: Content) returns (r: Option<nat>)
      ensures r == FindContent(stored, content)
    {
      assert stored[0..] == stored;
      for index := 0 to |stored|
        invariant FindContent(stored, content) == Shift(FindContent(stored[index..], content), index)
      {
        assert stored[index..][1..] == stored[index + 1..];
        if stored[index].content == content { return Some(index); }
      }
      return None;
    }

    method FirstVisible(stored: seq<Record>, id: string) returns (r: Option<nat>)
      ensures r == FindVisible(stored, binding, id)
    {
      hide FindVisible, Visible;
      assert stored[0..] == stored;
      for index := 0 to |stored|
        invariant FindVisible(stored, binding, id) == Shift(FindVisible(stored[index..], binding, id), index)
      {
        FindVisibleStep(stored, binding, id, index);
        if stored[index].id == id && Visible(binding, stored[index].content) { return Some(index); }
      }
      NothingVisible(stored, binding, id);
      return None;
    }

    /** Whether any record but the one at `index` has this digest. */
    method HasDuplicate(stored: seq<Record>, index: nat, content: Content) returns (found: bool)
      requires index < |stored|
      ensures found <==> FindContent(Without(stored, index), content).Some?
    {
      var others := Without(stored, index);
      for other := 0 to |stored|
        invariant forall k | 0 <= k < other && k != index :: stored[k].content != content
      {
        if other != index && stored[other].content == content {
          assert others[if other < index then other else other - 1] == stored[other];
          return true;
        }
      }
      forall o | o in others ensures o.content != content {
        var k :| 0 <= k < |others| && others[k] == o;
        assert o == stored[if k < index then k else k + 1];
      }
      found := false;
    }
  }

  /** A reply that is no error answers the request, and the file holds what that saves. */
  ghost predicate Told(
    reply: Option<Reply>, before: File, after: File, b: Binding, request: Request, now: int, id: string)
  {
    reply.Some? ==>
      if reply.value.Created? || reply.value.Updated? || reply.value.Forgotten? then
        Answers(before, b, request, now, id, reply.value, Some(after))
      else Answers(before, b, request, now, id, reply.value, None) && after == before
  }

  /** The reply and the file are those of the specification; None is an error reply. */
  ghost predicate Served(
    reply: Option<Reply>, before: File, size0: nat, after: File, size1: nat, b: Binding, request: Request, now: int,
    id: string, outcome: SaveOutcome)
  {
    if size0 > MAX_FILE_BYTES || !ValidFile(before) then reply.None? && after == before && size1 == size0
    else
      var (expected, saved) := Mutate(before, b, request, now, id);
      if saved.None? then reply == Some(expected) && after == before && size1 == size0
      else
        && (if Writes(saved.value, outcome) then after == saved.value && size1 == Encoded(saved.value) + 1
            else after == before && size1 == size0)
        && reply == if Encoded(saved.value) <= MAX_FILE_BYTES && outcome == Saved then Some(expected) else None
  }

  lemma ServedTells(
    reply: Option<Reply>, before: File, size0: nat, after: File, size1: nat, b: Binding, request: Request, now: int,
    id: string, outcome: SaveOutcome)
    requires Served(reply, before, size0, after, size1, b, request, now, id, outcome)
    ensures Told(reply, before, after, b, request, now, id)
  {
    MutateAnswers(before, b, request, now, id);
    hide Answers;
  }

  lemma FindVisibleStep(stored: seq<Record>, b: Binding, id: string, index: nat)
    requires index < |stored|
    ensures FindVisible(stored[index..], b, id) ==
            if stored[index].id == id && Visible(b, stored[index].content) then Some(0)
            else Shift(FindVisible(stored[index + 1..], b, id), 1)
  {
    assert stored[index..][1..] == stored[index + 1..];
  }

  lemma NothingVisible(stored: seq<Record>, b: Binding, id: string)
    ensures FindVisible(stored[|stored|..], b, id) == None
  {
  }

  ghost function Shift(r: Option<nat>, offset: nat): Option<nat> {
    if r.None? then None else Some(r.value + offset)
  }
}
