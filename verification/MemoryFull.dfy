/** A records file grows to exactly its limit: five hundred notes, each well within the bounds of
    one note, that leave a file no load accepts. */
module MemoryFull {
  import opened Common
  import opened Ordering
  import opened MemoryRecords
  import opened MemoryEncoding
  import opened MemoryStore

  const NOTES := 500

  /** Of the notes, the first LONGER are one byte longer than the others. */
  const LONGER := 451
  const NOTE_LENGTH := 1836

  function Digit(n: nat): (c: char)
    requires n < 10
    ensures c as int == 48 + n
  {
    (48 + n) as char
  }

  function Number(k: nat): string
    requires k < 1000
  {
    [Digit(k / 10 / 10), Digit(k / 10 % 10), Digit(k % 10)]
  }

  predicate IsDigit(c: char) { 48 <= c as int < 58 }

  lemma DigitPlain(c: char)
    requires IsDigit(c)
    ensures c in "0123456789" && CharLength(c) == 1 && !IsSpace(c)
  {
  }

  lemma Quotient(n: nat)
    ensures n == n / 10 * 10 + n % 10
  {
  }

  lemma NumberInjective(j: nat, k: nat)
    requires j < 1000 && k < 1000 && Number(j) == Number(k)
    ensures j == k
  {
    assert Number(j)[0] == Number(k)[0] && Number(j)[1] == Number(k)[1] && Number(j)[2] == Number(k)[2];
    hide Number;
    assert j / 10 == k / 10 by { Quotient(j / 10); Quotient(k / 10); }
    Quotient(j);
    Quotient(k);
  }

  function Fill(n: nat, c: char): (s: string)
    ensures |s| == n && forall i | 0 <= i < n :: s[i] == c
  {
    seq(n, i requires 0 <= i < n => c)
  }

  function Text(k: nat): string
    requires k < NOTES
  {
    Number(k) + Fill(NOTE_LENGTH - 3 + if k < LONGER then 1 else 0, 'a')
  }

  function Note(k: nat): Content
    requires k < NOTES
  {
    Content(User, "", Fact, Text(k), "user", None)
  }

  function NoteID(k: nat): string
    requires k < NOTES
  {
    "mem_" + Fill(29, '0') + Number(k)
  }

  /** The k-th note is remembered in the k-th second. */
  function Moment(k: nat): int { (k + 1) * SECOND }

  function NoteRecord(k: nat): Record
    requires k < NOTES
  {
    Record(NoteID(k), Note(k), Moment(k), Moment(k))
  }

  predicate Plain(s: string) { forall c | c in s :: CharLength(c) == 1 && c as int < 0x80 }

  lemma NumberPlain(k: nat)
    requires k < 1000
    ensures Plain(Number(k)) && forall c | c in Number(k) :: IsDigit(c) && c in "0123456789" && !IsSpace(c)
  {
    forall c | c in Number(k) ensures IsDigit(c) {
    }
    hide CharLength;
    forall c | c in Number(k) ensures CharLength(c) == 1 && c in "0123456789" && !IsSpace(c) {
      DigitPlain(c);
    }
  }

  lemma NoteNormal(k: nat)
    requires k < NOTES
    ensures NormalContent(Note(k)) && IsRecordID(NoteID(k))
  {
    NumberPlain(k);
    var text := Text(k);
    assert text[0] == Number(k)[0] && Number(k)[0] in Number(k);
    assert text[|text| - 1] == 'a';
    assert NoteID(k)[4..] == Fill(29, '0') + Number(k);
  }

  lemma NotesDiffer(j: nat, k: nat)
    requires j < NOTES && k < NOTES && j != k
    ensures Note(j) != Note(k) && NoteID(j) != NoteID(k)
  {
    assert Text(j)[..3] == Number(j) && Text(k)[..3] == Number(k);
    assert NoteID(j)[33..] == Number(j) && NoteID(k)[33..] == Number(k);
    if Number(j) == Number(k) {
      NumberInjective(j, k);
    }
  }

  lemma NotePlain(k: nat)
    requires k < NOTES
    ensures Plain(Text(k)) && Plain(NoteID(k)) && Plain("user")
  {
    NumberPlain(k);
  }

  lemma MomentLength(k: nat)
    ensures StampLength(Moment(k)) == 20
  {
  }

  lemma KeyLengths()
    ensures Member("id", 36) == 44 && Member("scope", 4) == 15 && Member("category", 4) == 18
    ensures Member("source", 4) == 16 && Member("created_at", 20) == 36 && Member("updated_at", 20) == 36
    ensures Member("digest", DIGEST_LENGTH) == 83 && forall n: nat :: Member("text", n) == 10 + n
  {
  }

  lemma NoteLength(k: nat)
    requires k < NOTES
    ensures RecordLength(NoteRecord(k)) == 259 + NOTE_LENGTH + if k < LONGER then 1 else 0
  {
    NotePlain(k);
    PlainLength(Text(k));
    PlainLength(NoteID(k));
    PlainLength("user");
    MomentLength(k);
    KeyLengths();
    hide EscapedLength, StampLength, Plain, Number, Fill, Member, Moment;
  }

  // ------------------------------------------------------------------ filling up

  function Total(k: nat): nat { 2096 * k + if k < LONGER then k else LONGER }

  ghost predicate Reached(s: State) { exists events :: Run(Start(), events, s) }

  lemma {:induction false} RunAppend(s: State, events: seq<Event>, t: State, e: Event)
    requires Run(s, events, t) && Enabled(t, e)
    ensures Run(s, events + [e], Step(t, e))
    decreases events
  {
    if events == [] {
      assert events + [e] == [e] && [e][1..] == [];
    } else {
      RunAppend(Step(s, events[0]), events[1..], t, e);
      assert (events + [e])[1..] == events[1..] + [e];
    }
  }

  lemma ReachedStep(s: State, e: Event)
    requires Reached(s) && Enabled(s, e)
    ensures Reached(Step(s, e))
  {
    var events :| Run(Start(), events, s);
    RunAppend(Start(), events, s, e);
  }

  lemma ReachedInv(s: State)
    requires Reached(s)
    ensures Inv(s)
  {
    var events :| Run(Start(), events, s);
    RunKeepsInvariant(Start(), events, s);
  }

  /** The first `k` notes are stored, nothing is under way, and the others are still unknown. */
  ghost predicate Filled(s: State, k: nat) {
    && Reached(s) && s.lock.None? && s.phases == map[] && s.clock == k * SECOND && |s.log| == k
    && RecordsLength(s.disk.records) == Total(k) && (k > 0 ==> s.disk.records != [])
    && forall j | k <= j < NOTES :: Unknown(s, j)
  }

  /** No record holds this note and no ID has been derived for it. */
  ghost predicate Unknown(s: State, j: nat)
    requires j < NOTES
  {
    && (forall r | r in s.disk.records :: r.content != Note(j))
    && forall i | i in s.issued :: i != NoteID(j) && s.issued[i].content != Note(j)
  }

  lemma DecimalLengths(k: nat)
    ensures k < 1000 ==> DecimalLength(k) <= 3
    ensures DecimalLength(NOTES) == 3
  {
    if k < 1000 {
      assert k / 10 / 10 < 10 && DecimalLength(k / 10 / 10) == 1;
      assert DecimalLength(k / 10) <= 2;
    }
    assert DecimalLength(5) == 1 && DecimalLength(50) == 2;
  }

  function Adding(k: nat): Request
    requires k < NOTES
  {
    Remember(Note(k))
  }

  lemma RememberSaves(f: File, b: Binding, content: Content, now: int, id: string)
    requires forall r | r in f.records :: r.content != content
    ensures var r := Record(id, content, now, now);
            var saved := Mutate(f, b, Remember(content), now, id).1;
            && saved == Some(File(f.generation + 1, Sorted(f.records + [r])))
            && RecordsLength(saved.value.records) == RecordsLength(f.records) + RecordLength(r) + 1
            && forall o :: o in saved.value.records <==> o in f.records || o == r
  {
    hide RecordLength;
    var r := Record(id, content, now, now);
    assert FindContent(f.records, content).None?;
    var added := f.records + [r];
    SortedLength(added);
    RecordsLengthConcat(f.records, [r]);
    assert [r][1..] == [];
    SortedMembers(added);
    hide FindContent, Sorted;
  }

  /** What remembering the next note saves. */
  lemma NextFile(s: State, k: nat)
    requires k < NOTES && Filled(s, k)
    ensures var saved := Mutate(s.disk, Binding("", ""), Adding(k), Moment(k), NoteID(k)).1;
            && saved.Some? && saved.value.generation == s.disk.generation + 1
            && RecordsLength(saved.value.records) == Total(k + 1) && saved.value.records != []
            && forall r :: r in saved.value.records <==> r in s.disk.records || r == NoteRecord(k)
  {
    hide RecordLength, RecordsLength, Note, NoteID, Moment, Reached, Mutate;
    assert Unknown(s, k);
    RememberSaves(s.disk, Binding("", ""), Note(k), Moment(k), NoteID(k));
    NoteLength(k);
    var saved := Mutate(s.disk, Binding("", ""), Adding(k), Moment(k), NoteID(k)).1;
    assert NoteRecord(k) in saved.value.records;
  }

  /** The next note is remembered by one process in three steps. */
  lemma FillNext(s: State, k: nat) returns (t: State)
    requires k < NOTES && Filled(s, k)
    ensures Filled(t, k + 1)
  {
    hide Mutate, Encoded, ValidFile, Note, NoteID, Sorted, RecordsLength, Reached, NormalContent, IsRecordID;
    ReachedInv(s);
    NoteNormal(k);
    NextFile(s, k);
    EncodedFilled(s, k);
    var e1, e2 := Acquire(0, Binding("", ""), Adding(k)), Load(0);
    var e3 := Finish(0, Moment(k), NoteID(k), Saved);
    var s1 := Step(s, e1);
    var s2 := Step(s1, e2);
    assert Unknown(s, k);
    assert Derived(s2.issued, NoteID(k), Identity(Note(k), Moment(k)));
    t := Step(s2, e3);
    ReachedStep(s, e1);
    ReachedStep(s1, e2);
    ReachedStep(s2, e3);
    forall j | k + 1 <= j < NOTES ensures Unknown(t, j) {
      NotesDiffer(j, k);
      assert Unknown(s, j);
    }
  }

  lemma EncodedFilled(s: State, k: nat)
    requires k < NOTES && Filled(s, k) && Inv(s)
    ensures s.size <= MAX_FILE_BYTES
    ensures var saved := Mutate(s.disk, Binding("", ""), Adding(k), Moment(k), NoteID(k)).1;
            saved.Some? ==> Encoded(saved.value) <= MAX_FILE_BYTES
  {
    hide Mutate, Sorted, Note, NoteID, Moment, Reached, RecordsLength, Unknown;
    NextFile(s, k);
    DecimalLengths(k);
    DecimalLengths(k + 1);
  }

  lemma {:induction false} FillTo(k: nat) returns (s: State)
    requires k <= NOTES
    ensures Filled(s, k)
  {
    if k == 0 {
      s := Start();
      assert Run(Start(), [], s);
    } else {
      var before := FillTo(k - 1);
      s := FillNext(before, k - 1);
    }
  }

  lemma FullLength(t: State)
    requires Filled(t, NOTES) && Inv(t)
    ensures Encoded(t.disk) == MAX_FILE_BYTES && !Loadable(t)
  {
    DecimalLengths(NOTES);
  }

  /** From the empty store notes within every bound fill the file up to exactly its limit: nothing
      is under way, and no process will ever load or change the file again. */
  lemma UnloadableIsReached()
    ensures exists events, t :: Run(Start(), events, t)
                                && t.phases == map[] && Encoded(t.disk) == MAX_FILE_BYTES && !Loadable(t)
  {
    hide Run, Inv, RecordsLength, DecimalLength, Unknown;
    var t := FillTo(NOTES);
    ReachedInv(t);
    FullLength(t);
    var events :| Run(Start(), events, t);
  }
}
