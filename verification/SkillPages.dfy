/** internal/adapter/skill/adapter.go: the pages of skills_list and skills_read and their
    cursors. Strings are byte sequences; a digest is a hexadecimal text. */
module SkillPages {
  import opened Common

  const PAGE_BYTES: nat := 32_768
  const PAGE_SKILLS: nat := 20
  const MAX_INT: nat := 0x7FFF_FFFF_FFFF_FFFF

  // ------------------------------------------------------------------ cursors

  /** A cursor argument: absent, what it decodes to, or a text that is not base64. */
  datatype Cursor = First | Raw(text: string) | Undecodable

  function Digit(d: nat): char
    requires d < 10
  {
    '0' + d as char
  }

  /** strconv.Itoa of a non-negative number. */
  function Itoa(n: nat): (s: string)
    ensures s != ""
  {
    if n < 10 then [Digit(n)] else Itoa(n / 10) + [Digit(n % 10)]
  }

  predicate IsDigit(c: char) { '0' <= c <= '9' }

  function Digits(s: string): Option<nat> {
    if s == "" then Some(0)
    else if !IsDigit(s[|s| - 1]) then None
    else
      var front := Digits(s[..|s| - 1]);
      if front.None? then None else Some(front.value * 10 + (s[|s| - 1] as int - '0' as int))
  }

  /** strconv.Atoi: an optional sign, then digits whose value fits an int. */
  function Atoi(s: string): Option<int> {
    var negative := s != "" && s[0] == '-';
    var digits := if s != "" && (s[0] == '-' || s[0] == '+') then s[1..] else s;
    if digits == "" || Digits(digits).None? then None
    else
      var n: int := Digits(digits).value;
      if negative then (if n > MAX_INT + 1 then None else Some(-n)) else if n > MAX_INT then None else Some(n)
  }

  function EncodeCursor(offset: nat, digest: string): Cursor { Raw(Itoa(offset) + ":" + digest) }

  function DecodeCursor(cursor: Cursor, digest: string): Result<nat> {
    match cursor
    case First => Ok(0)
    case Undecodable => Err
    case Raw(text) =>
      var i := IndexOf(text, ':');
      if i == |text| || text[i + 1..] != digest then Err
      else
        match Atoi(text[..i])
        case None => Err
        case Some(n) => if n < 0 then Err else Ok(n)
  }

  lemma {:induction false} DigitsOfItoa(n: nat)
    ensures Digits(Itoa(n)) == Some(n) && IsDigit(Itoa(n)[0]) && ':' !in Itoa(n)
  {
    if n < 10 {
      assert Itoa(n)[..0] == "";
      assert Digits("") == Some(0);
    } else {
      DigitsOfItoa(n / 10);
      var s := Itoa(n);
      assert s[..|s| - 1] == Itoa(n / 10);
    }
  }

  /** A cursor leads back to its offset under its own digest and is refused under any other. */
  lemma CursorRoundTrip(offset: nat, digest: string, other: string)
    requires offset <= MAX_INT
    ensures DecodeCursor(EncodeCursor(offset, digest), other) == if other == digest then Ok(offset) else Err
  {
    DigitsOfItoa(offset);
    IndexAfter(Itoa(offset), ':', digest);
    hide Itoa, Digits, IndexOf;
    var text := Itoa(offset) + ":" + digest;
    assert text == Itoa(offset) + [':'] + digest;
    assert text[..|Itoa(offset)|] == Itoa(offset) && text[|Itoa(offset)| + 1..] == digest;
  }

  /** Two offsets never share a cursor. */
  lemma CursorsDiffer(a: nat, b: nat, digest: string)
    requires a <= MAX_INT && b <= MAX_INT
    ensures EncodeCursor(a, digest) == EncodeCursor(b, digest) ==> a == b
  {
    CursorRoundTrip(a, digest, digest);
    CursorRoundTrip(b, digest, digest);
    hide EncodeCursor, DecodeCursor;
  }

  function Zeros(n: nat): (s: string)
    ensures |s| == n && forall c | c in s :: c == '0'
  {
    if n == 0 then "" else Zeros(n - 1) + ['0']
  }

  lemma NoZeros()
    ensures Zeros(0) == ""
  {
  }

  lemma ZerosBeforeZero(zeros: nat)
    requires zeros > 0
    ensures Zeros(zeros) == Zeros(zeros - 1) + Itoa(0)
  {
  }

  /** A number after leading zeros is read back. */
  lemma {:induction false} DigitsOfZeros(zeros: nat, n: nat)
    ensures Digits(Zeros(zeros) + Itoa(n)) == Some(n)
    decreases n, zeros
  {
    hide Zeros;
    var s := Zeros(zeros) + Itoa(n);
    if n >= 10 {
      assert s[..|s| - 1] == Zeros(zeros) + Itoa(n / 10);
      DigitsOfZeros(zeros, n / 10);
    } else if zeros == 0 {
      assert s[..|s| - 1] == "" && Digits("") == Some(0);
    } else {
      ZerosBeforeZero(zeros);
      DigitsOfZeros(zeros - 1, 0);
      assert s[..|s| - 1] == Zeros(zeros - 1) + Itoa(0);
    }
  }

  /** Whatever is read as digits is one. */
  lemma {:induction false} ZerosOf(s: string, n: nat) returns (zeros: nat)
    requires s != "" && Digits(s) == Some(n)
    ensures s == Zeros(zeros) + Itoa(n)
  {
    hide Zeros;
    var front, d := s[..|s| - 1], s[|s| - 1];
    var m := Digits(front).value;
    assert s == front + [d] && n == m * 10 + (d as int - '0' as int) && Digit(n % 10) == d && n / 10 == m;
    if front == "" {
      zeros := 0;
      assert Digits("") == Some(0) && Zeros(0) == "" by { NoZeros(); }
    } else {
      zeros := ZerosOf(front, m);
      if m == 0 {
        zeros := zeros + 1;
        ZerosBeforeZero(zeros);
      }
    }
  }

  /** An optional sign, leading zeros and the offset, before the digest. */
  function Written(sign: string, zeros: nat, offset: nat, digest: string): string {
    sign + Zeros(zeros) + Itoa(offset) + ":" + digest
  }

  predicate Sign(sign: string, offset: nat) { sign == "" || sign == "+" || (sign == "-" && offset == 0) }

  lemma AtoiSigned(sign: string, digits: string, offset: nat)
    requires digits != "" && IsDigit(digits[0]) && Digits(digits) == Some(offset)
    requires Sign(sign, offset) && offset <= MAX_INT
    ensures Atoi(sign + digits) == Some(offset)
  {
    hide Digits;
    var s := sign + digits;
    assert s[|sign|..] == digits;
    assert sign == "" ==> s == digits;
  }

  lemma WrittenNumber(sign: string, zeros: nat, offset: nat)
    requires Sign(sign, offset) && offset <= MAX_INT
    ensures Atoi(sign + Zeros(zeros) + Itoa(offset)) == Some(offset)
    ensures ':' !in sign + Zeros(zeros) + Itoa(offset)
  {
    hide Atoi, Digits, Itoa;
    var digits := Zeros(zeros) + Itoa(offset);
    DigitsOfZeros(zeros, offset);
    DigitsOfItoa(offset);
    assert digits[0] == (if zeros > 0 then Zeros(zeros)[0] else Itoa(offset)[0]);
    assert zeros > 0 ==> Zeros(zeros)[0] in Zeros(zeros);
    AtoiSigned(sign, digits, offset);
    assert sign + Zeros(zeros) + Itoa(offset) == sign + digits;
  }

  lemma NumberWritten(s: string, offset: nat) returns (sign: string, zeros: nat)
    requires Atoi(s) == Some(offset)
    ensures Sign(sign, offset) && offset <= MAX_INT && s == sign + Zeros(zeros) + Itoa(offset)
  {
    hide Digits, Itoa, Zeros;
    var signed := s != "" && (s[0] == '-' || s[0] == '+');
    var digits := if signed then s[1..] else s;
    sign := if signed then s[..1] else "";
    zeros := ZerosOf(digits, Digits(digits).value);
    assert s == sign + digits;
  }

  /** The texts that decode to an offset are those: a sign and leading zeros are allowed. */
  lemma DecodesExactlyWhen(text: string, digest: string, offset: nat)
    ensures DecodeCursor(Raw(text), digest) == Ok(offset) <==>
            offset <= MAX_INT &&
            exists sign, zeros :: Sign(sign, offset) && text == Written(sign, zeros, offset, digest)
  {
    if DecodeCursor(Raw(text), digest) == Ok(offset) {
      var i := IndexOf(text, ':');
      var sign, zeros := NumberWritten(text[..i], offset);
      assert text == text[..i] + ":" + text[i + 1..];
      assert text == Written(sign, zeros, offset, digest);
    }
    if offset <= MAX_INT && exists sign, zeros :: Sign(sign, offset) && text == Written(sign, zeros, offset, digest) {
      var sign, zeros :| Sign(sign, offset) && text == Written(sign, zeros, offset, digest);
      WrittenDecodes(sign, zeros, offset, digest);
    }
  }

  lemma WrittenDecodes(sign: string, zeros: nat, offset: nat, digest: string)
    requires Sign(sign, offset) && offset <= MAX_INT
    ensures DecodeCursor(Raw(Written(sign, zeros, offset, digest)), digest) == Ok(offset)
  {
    WrittenNumber(sign, zeros, offset);
    hide Atoi, Itoa, Zeros, IndexOf;
    var number := sign + Zeros(zeros) + Itoa(offset);
    var text := Written(sign, zeros, offset, digest);
    IndexAfter(number, ':', digest);
    assert text == number + [':'] + digest;
    assert text[..|number|] == number && text[|number| + 1..] == digest;
  }

  /** Of these the code itself writes only the one without either. */
  lemma EncodedExactlyWhen(sign: string, zeros: nat, offset: nat, digest: string)
    ensures Raw(Written(sign, zeros, offset, digest)) == EncodeCursor(offset, digest) <==> sign == "" && zeros == 0
  {
    assert |Written(sign, zeros, offset, digest)| == |sign| + zeros + |EncodeCursor(offset, digest).text|;
    if sign == "" && zeros == 0 {
      assert Written(sign, zeros, offset, digest) == EncodeCursor(offset, digest).text;
    }
  }

  /** So a text that is no cursor the code hands out can decode all the same. */
  lemma SignedCursorDecodes(digest: string)
    ensures DecodeCursor(Raw("+7:" + digest), digest) == Ok(7) && Raw("+7:" + digest) != EncodeCursor(7, digest)
  {
    assert Zeros(0) == "" && Itoa(7) == "7";
    assert Written("+", 0, 7, digest) == "+7:" + digest;
    WrittenDecodes("+", 0, 7, digest);
    EncodedExactlyWhen("+", 0, 7, digest);
  }

  // ------------------------------------------------------------------ UTF-8

  predicate IsBoundary(s: string, i: nat) { i <= |s| && (i == |s| || i == 0 || !Continuation(s[i])) }

  /** The length of the sequence a lead byte announces, 0 for none. */
  function SequenceLength(c: char): nat {
    var b := c as int;
    if b < 0x80 then 1
    else if 0xC2 <= b < 0xE0 then 2
    else if 0xE0 <= b < 0xF0 then 3
    else if 0xF0 <= b < 0xF5 then 4
    else 0
  }

  /** Every sequence is complete. */
  /** A lead byte announces one to four bytes; other bytes lead nothing. */
  lemma SequenceLengthMeans(c: char)
    ensures SequenceLength(c) ==
            if c as int <= 0x7F then 1
            else if c as int in {0xC0, 0xC1} || Continuation(c) then 0
            else if c as int <= 0xDF then 2
            else if c as int <= 0xEF then 3
            else if c as int <= 0xF4 then 4
            else 0
  {
  }

  predicate ValidUTF8(s: string) {
    s == "" ||
    var n := SequenceLength(s[0]);
    0 < n <= |s| && (forall k | 0 < k < n :: Continuation(s[k])) && ValidUTF8(s[n..])
  }

  /** Among four consecutive positions of valid text one is a character boundary. */
  lemma {:induction false} BoundaryNearby(s: string, i: nat) returns (j: nat)
    requires ValidUTF8(s) && i <= |s|
    ensures j <= i < j + 4 && IsBoundary(s, j)
  {
    if s == "" {
      j := 0;
    } else {
      var n := SequenceLength(s[0]);
      if i < n {
        j := 0;
      } else {
        var k := BoundaryNearby(s[n..], i - n);
        j := k + n;
        if k < |s[n..]| && k > 0 { assert s[j] == s[n..][k]; }
        if k == 0 && n < |s| {
          assert s[n..][0] == s[n];
          ValidStarts(s[n..]);
        }
      }
    }
  }

  lemma ValidStarts(s: string)
    requires ValidUTF8(s) && s != ""
    ensures !Continuation(s[0])
  {
  }

  // ------------------------------------------------------------------ read pages

  /** Where the page from `start` ends: the last boundary within its size. */
  function LastBoundary(s: string, i: nat): (end: nat)
    requires i <= |s|
    ensures end <= i && IsBoundary(s, end) && forall k | end < k <= i :: !IsBoundary(s, k)
  {
    if IsBoundary(s, i) then i else LastBoundary(s, i - 1)
  }

  function PageEnd(s: string, start: nat): nat
    requires start <= |s|
  {
    LastBoundary(s, if start + PAGE_BYTES < |s| then start + PAGE_BYTES else |s|)
  }

  datatype Page = Page(content: string, next: Cursor)

  /** The page a cursor asks for; the first page is asked for without one, and a page without
      a next cursor is the last. */
  function ReadPage(s: string, digest: string, cursor: Cursor): Result<Page> {
    match DecodeCursor(cursor, digest)
    case Err => Err
    case Ok(start) =>
      if start > |s| || !IsBoundary(s, start) then Err
      else
        var end := PageEnd(s, start);
        var cut := if end < start then start else end;
        Ok(Page(s[start..cut], if end < |s| then EncodeCursor(end, digest) else First))
  }

  lemma BoundaryExactlyWhen(s: string, offset: nat)
    ensures offset <= |s| && IsBoundary(s, offset) <==>
            offset == 0 || offset == |s| || (offset < |s| && !Continuation(s[offset]))
  {
  }

  /** A cursor is refused exactly when its offset is past the end or within a character; its page
      is the text from there, of at most 32768 bytes, and names the next unless it is the last. */
  lemma ReadPageMeans(s: string, digest: string, cursor: Cursor, offset: nat)
    requires ValidUTF8(s) && DecodeCursor(cursor, digest) == Ok(offset)
    ensures var page := ReadPage(s, digest, cursor);
            && (page.Ok? <==> offset == 0 || offset == |s| || (offset < |s| && !Continuation(s[offset])))
            && (page.Ok? ==>
                  var n := |page.value.content|;
                  && offset + n <= |s| && page.value.content == s[offset..offset + n] && n <= 32_768
                  && page.value.next == if offset + n == |s| then First else EncodeCursor(offset + n, digest))
  {
    BoundaryExactlyWhen(s, offset);
    hide IsBoundary, EncodeCursor, DecodeCursor, ValidUTF8, Continuation;
    if offset <= |s| && IsBoundary(s, offset) {
      PageProgress(s, offset);
    }
  }

  /** Every page of valid text but that of an empty rest makes progress, is at most PAGE_BYTES
      long and ends between characters. */
  lemma PageProgress(s: string, start: nat)
    requires ValidUTF8(s) && start <= |s| && IsBoundary(s, start)
    ensures var end := PageEnd(s, start);
            start <= end <= start + PAGE_BYTES && IsBoundary(s, end) && (start < |s| ==> start < end)
  {
    var limit := if start + PAGE_BYTES < |s| then start + PAGE_BYTES else |s|;
    var j := BoundaryNearby(s, limit);
    hide ValidUTF8;
    if j <= start {
      assert limit < start + 4;
      assert limit == |s| && IsBoundary(s, limit);
    }
  }

  /** Text that is not valid can hold a page in place: its cursor then leads back to itself. */
  lemma NoProgressExactlyWhen(s: string, start: nat)
    requires start < |s| && IsBoundary(s, start)
    ensures PageEnd(s, start) <= start <==>
            forall k | start < k <= (if start + PAGE_BYTES < |s| then start + PAGE_BYTES else |s|) :: !IsBoundary(s, k)
  {
  }

  /** The end of the page as the loop finds it. */
  method FindPageEnd(s: string, start: nat) returns (end: nat)
    requires start <= |s|
    ensures end == PageEnd(s, start)
  {
    end := if start + PAGE_BYTES < |s| then start + PAGE_BYTES else |s|;
    while end < |s| && !IsBoundary(s, end)
      invariant end <= |s| && LastBoundary(s, end) == PageEnd(s, start)
      decreases end
    {
      end := end - 1;
    }
  }

  method RunRead(s: string, digest: string, cursor: Cursor) returns (r: Result<Page>)
    requires ValidUTF8(s)
    ensures r == ReadPage(s, digest, cursor)
  {
    var decoded := DecodeCursor(cursor, digest);
    if decoded.Err? { return Err; }
    var start := decoded.value;
    if start > |s| || !IsBoundary(s, start) { return Err; }
    var end := FindPageEnd(s, start);
    PageProgress(s, start);
    var next := First;
    if end < |s| { next := EncodeCursor(end, digest); }
    r := Ok(Page(s[start..end], next));
  }

  /** Following the cursors from the first page returns the whole text, in non-empty pages of at
      most PAGE_BYTES. */
  method ReadAll(s: string, digest: string) returns (pages: seq<string>)
    requires ValidUTF8(s) && |s| <= MAX_INT
    ensures Concat(pages) == s
    ensures forall p | p in pages :: |p| <= PAGE_BYTES && (s != "" ==> p != "")
  {
    hide ValidUTF8, DecodeCursor, EncodeCursor;
    pages := [];
    var cursor := First;
    ghost var start := 0;
    FirstPage(digest);
    while true
      invariant start <= |s| && IsBoundary(s, start) && Concat(pages) == s[..start]
      invariant start == |s| ==> s == ""
      invariant DecodeCursor(cursor, digest) == Ok(start)
      invariant forall p | p in pages :: |p| <= PAGE_BYTES && (s != "" ==> p != "")
      decreases |s| - start, if cursor == First then 1 else 0
    {
      var r := RunRead(s, digest, cursor);
      PageProgress(s, start);
      var page := r.value;
      ConcatAppend(pages, page.content);
      pages := pages + [page.content];
      ghost var end := PageEnd(s, start);
      assert s[..start] + s[start..end] == s[..end];
      if page.next == First {
        NextIsCursor(end, digest);
        assert end == |s|;
        assert s[..end] == s;
        break;
      }
      CursorRoundTrip(end, digest, digest);
      cursor := page.next;
      start := end;
    }
  }

  lemma FirstPage(digest: string)
    ensures DecodeCursor(First, digest) == Ok(0)
  {
  }

  lemma NextIsCursor(end: nat, digest: string)
    ensures EncodeCursor(end, digest) != First
  {
  }

  function Concat(pages: seq<string>): string {
    if pages == [] then "" else pages[0] + Concat(pages[1..])
  }

  lemma {:induction false} ConcatAppend(pages: seq<string>, page: string)
    ensures Concat(pages + [page]) == Concat(pages) + page
  {
    if pages == [] {
      assert pages + [page] == [page] && [page][1..] == [];
    } else {
      ConcatAppend(pages[1..], page);
      assert (pages + [page])[1..] == pages[1..] + [page];
    }
  }

  // ------------------------------------------------------------------ list pages

  datatype ListPage<T> = ListPage(items: seq<T>, next: Cursor)

  function ListPageOf<T>(summaries: seq<T>, digest: string, cursor: Cursor): Result<ListPage<T>> {
    match DecodeCursor(cursor, digest)
    case Err => Err
    case Ok(start) =>
      if start > |summaries| then Err
      else
        var end := if start + PAGE_SKILLS < |summaries| then start + PAGE_SKILLS else |summaries|;
        Ok(ListPage(summaries[start..end], if end < |summaries| then EncodeCursor(end, digest) else First))
  }

  /** A page of the list has the twenty skills from its offset on, or those that are left. */
  lemma ListPageMeans<T>(summaries: seq<T>, digest: string, offset: nat)
    requires offset <= MAX_INT
    ensures var page := ListPageOf(summaries, digest, EncodeCursor(offset, digest));
            if offset > |summaries| then page.Err?
            else if |summaries| - offset > 20 then
              page == Ok(ListPage(summaries[offset..offset + 20], EncodeCursor(offset + 20, digest)))
            else page == Ok(ListPage(summaries[offset..], First))
  {
    CursorRoundTrip(offset, digest, digest);
    hide EncodeCursor, DecodeCursor;
    assert offset <= |summaries| ==> summaries[offset..|summaries|] == summaries[offset..];
  }

  /** Following the cursors lists every skill once, in order, at most PAGE_SKILLS a page. */
  method ListAll<T>(summaries: seq<T>, digest: string) returns (listed: seq<T>, pages: nat)
    requires |summaries| <= MAX_INT
    ensures listed == summaries
    ensures PAGE_SKILLS * (pages - 1) <= |summaries| <= PAGE_SKILLS * pages
  {
    hide DecodeCursor, EncodeCursor;
    listed, pages := [], 0;
    var cursor := First;
    FirstPage(digest);
    while true
      invariant |listed| == PAGE_SKILLS * pages && |listed| <= |summaries| && listed == summaries[..|listed|]
      invariant DecodeCursor(cursor, digest) == Ok(|listed|)
      decreases |summaries| - |listed|, if pages == 0 then 1 else 0
    {
      var r := ListPageOf(summaries, digest, cursor);
      ghost var start := |listed|;
      ghost var end := if start + PAGE_SKILLS < |summaries| then start + PAGE_SKILLS else |summaries|;
      listed := listed + r.value.items;
      pages := pages + 1;
      assert summaries[..start] + summaries[start..end] == summaries[..end];
      NextIsCursor(end, digest);
      if r.value.next == First { break; }
      CursorRoundTrip(end, digest, digest);
      cursor := r.value.next;
    }
  }
}
