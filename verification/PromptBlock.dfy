/** internal/adapter/memory/records.go: the escaped, bounded prompt block. Strings are byte
    sequences; `quoted` is the source name as the header prints it, escaped and quoted. */
module PromptBlock {
  import opened Common
  import opened MemoryRecords
  import opened MemorySearch
  import MemoryStore

  const MAX_PROMPT_BYTES := 102_400

  function Footer(): string { "\n</user_memory>" }

  function ClosingTag(): string { "</user_memory>" }

  // ----------------------------------------------------------------- escaping

  /** strings.ReplaceAll of one character. */
  function ReplaceAll(s: string, target: char, replacement: string): string {
    if s == "" then "" else (if s[0] == target then replacement else [s[0]]) + ReplaceAll(s[1..], target, replacement)
  }

  function Escape(s: string): string {
    ReplaceAll(ReplaceAll(ReplaceAll(s, '&', "&amp;"), '<', "&lt;"), '>', "&gt;")
  }

  function EscapeChar(c: char): string {
    if c == '&' then "&amp;" else if c == '<' then "&lt;" else if c == '>' then "&gt;" else [c]
  }

  /** Escaping in a single pass. */
  function EscapeOnce(s: string): string {
    if s == "" then "" else EscapeChar(s[0]) + EscapeOnce(s[1..])
  }

  function Unescape(s: string): string {
    if s == "" then ""
    else if "&amp;" <= s then "&" + Unescape(s[5..])
    else if "&lt;" <= s then "<" + Unescape(s[4..])
    else if "&gt;" <= s then ">" + Unescape(s[4..])
    else [s[0]] + Unescape(s[1..])
  }

  lemma {:induction false} ReplaceConcat(a: string, b: string, c: char, replacement: string)
    ensures ReplaceAll(a + b, c, replacement) == ReplaceAll(a, c, replacement) + ReplaceAll(b, c, replacement)
  {
    if a == "" {
      assert a + b == b;
    } else {
      assert (a + b)[1..] == a[1..] + b;
      ReplaceConcat(a[1..], b, c, replacement);
    }
  }

  lemma {:induction false} ReplaceAbsent(s: string, c: char, replacement: string)
    requires c !in s
    ensures ReplaceAll(s, c, replacement) == s
  {
    if s != "" {
      ReplaceAbsent(s[1..], c, replacement);
    }
  }

  lemma ReplaceOne(c: char, target: char, replacement: string)
    ensures ReplaceAll([c], target, replacement) == if c == target then replacement else [c]
  {
    assert [c][1..] == "";
    assert ReplaceAll("", target, replacement) == "";
    assert replacement + "" == replacement;
  }

  lemma EscapeOneChar(c: char)
    ensures Escape([c]) == EscapeChar(c)
  {
    ReplaceOne(c, '&', "&amp;");
    ReplaceOne(c, '<', "&lt;");
    ReplaceOne(c, '>', "&gt;");
    ReplaceAbsent("&amp;", '<', "&lt;");
    ReplaceAbsent("&amp;", '>', "&gt;");
    ReplaceAbsent("&lt;", '>', "&gt;");
  }

  lemma EscapeConcat(a: string, b: string)
    ensures Escape(a + b) == Escape(a) + Escape(b)
  {
    ReplaceConcat(a, b, '&', "&amp;");
    ReplaceConcat(ReplaceAll(a, '&', "&amp;"), ReplaceAll(b, '&', "&amp;"), '<', "&lt;");
    ReplaceConcat(ReplaceAll(ReplaceAll(a, '&', "&amp;"), '<', "&lt;"),
                  ReplaceAll(ReplaceAll(b, '&', "&amp;"), '<', "&lt;"), '>', "&gt;");
  }

  /** The three replacements one after the other are one pass over the characters: no
      replacement is escaped again. */
  lemma {:induction false} EscapeIsOnePass(s: string)
    ensures Escape(s) == EscapeOnce(s)
  {
    if s != "" {
      assert s == [s[0]] + s[1..];
      EscapeConcat([s[0]], s[1..]);
      EscapeOneChar(s[0]);
      EscapeIsOnePass(s[1..]);
    }
  }

  lemma {:induction false} UnescapeUndoes(s: string)
    ensures Unescape(EscapeOnce(s)) == s
  {
    if s != "" {
      UnescapeUndoes(s[1..]);
      var rest := EscapeOnce(s[1..]);
      var e := EscapeChar(s[0]) + rest;
      match s[0] {
        case '&' => assert e[5..] == rest && "&amp;" <= e;
        case '<' => assert e[4..] == rest && "&lt;" <= e && e[1] == 'l';
        case '>' => assert e[4..] == rest && "&gt;" <= e && e[1] == 'g';
        case c => assert e[1..] == rest && e[0] == c;
      }
    }
  }

  /** Escaping loses nothing and leaves no tag character. */
  lemma EscapeInjective(a: string, b: string)
    ensures Unescape(Escape(a)) == a
    ensures Escape(a) == Escape(b) ==> a == b
    ensures '<' !in Escape(a) && '>' !in Escape(a) && |Escape(a)| >= |a|
  {
    EscapeIsOnePass(a);
    EscapeIsOnePass(b);
    UnescapeUndoes(a);
    UnescapeUndoes(b);
    EscapedHasNoTags(a);
  }

  lemma {:induction false} EscapedHasNoTags(s: string)
    ensures '<' !in EscapeOnce(s) && '>' !in EscapeOnce(s) && |EscapeOnce(s)| >= |s|
  {
    if s != "" {
      EscapedHasNoTags(s[1..]);
    }
  }

  // ---------------------------------------------------------------- trimming

  /** strings.TrimSpace on bytes. */
  function TrimSpace(s: string): string {
    if s == "" then ""
    else if IsSpace(s[0]) then TrimSpace(s[1..])
    else if IsSpace(s[|s| - 1]) then TrimSpace(s[..|s| - 1])
    else s
  }

  lemma IsSpaceExactlyWhen(c: char)
    ensures IsSpace(c) <==> c as int in {9, 10, 11, 12, 13, 32}
  {
  }

  /** Trimming takes white space off both ends, and no more. */
  lemma {:induction false} TrimSpaceMeans(s: string) returns (start: nat, end: nat)
    ensures start <= end <= |s| && TrimSpace(s) == s[start..end]
    ensures forall i | 0 <= i < |s| && (i < start || end <= i) :: IsSpace(s[i])
    ensures start < end ==> !IsSpace(s[start]) && !IsSpace(s[end - 1])
    decreases |s|
  {
    hide IsSpace;
    if s == "" || (!IsSpace(s[0]) && !IsSpace(s[|s| - 1])) {
      start, end := 0, |s|;
      assert s[0..|s|] == s;
    } else if IsSpace(s[0]) {
      start, end := TrimSpaceMeans(s[1..]);
      assert s[1..][start..end] == s[start + 1..end + 1];
      forall i | 0 < i < |s| ensures s[i] == s[1..][i - 1] {}
      start, end := start + 1, end + 1;
    } else {
      var t := s[..|s| - 1];
      start, end := TrimSpaceMeans(t);
      assert t[start..end] == s[start..end];
    }
  }

  // ------------------------------------------------------- UTF-8 boundaries

  predicate RuneStart(c: char) { !Continuation(c) }

  function UTF8Boundary(s: string, index: nat): (cutoff: nat)
    requires index < |s|
    ensures cutoff <= index
  {
    if index == 0 || RuneStart(s[index]) then index else UTF8Boundary(s, index - 1)
  }

  /** The boundary is a character start, or the beginning, and the bytes skipped back over are
      all continuation bytes. */
  lemma {:induction false} BoundaryIsNearest(s: string, index: nat)
    requires index < |s|
    ensures var b := UTF8Boundary(s, index);
            (b == 0 || RuneStart(s[b])) && forall k | b < k <= index :: !RuneStart(s[k])
  {
    if index != 0 && !RuneStart(s[index]) {
      BoundaryIsNearest(s, index - 1);
    }
  }

  method PreviousUTF8Boundary(value: string, index: int) returns (cutoff: nat)
    ensures cutoff == if index >= |value| then |value| else if index <= 0 then 0 else UTF8Boundary(value, index)
  {
    if index >= |value| { return |value|; }
    if index <= 0 { return 0; }
    cutoff := index;
    while cutoff > 0 && !RuneStart(value[cutoff])
      invariant cutoff < |value| && UTF8Boundary(value, cutoff) == UTF8Boundary(value, index)
    {
      cutoff := cutoff - 1;
    }
  }

  // --------------------------------------------------------------- the block

  function HeaderBody(quoted: string): string {
    "user_memory source=" + quoted + " non_authoritative=\"true\""
  }

  function Header(quoted: string): string { "<" + HeaderBody(quoted) + ">" + "\n" }

  function Limit(limit: int): nat {
    if limit <= 0 || limit > MAX_PROMPT_BYTES then MAX_PROMPT_BYTES else limit
  }

  function Payload(content: string, available: nat): string {
    var payload := Escape(TrimSpace(content));
    if |payload| > available then payload[..UTF8Boundary(payload, available)] else payload
  }

  function Block(content: string, quoted: string, limit: int): string {
    var available := Limit(limit) - |Header(quoted)| - |Footer()|;
    if TrimSpace(content) == "" || available <= 0 then ""
    else Header(quoted) + Payload(content, available) + Footer()
  }

  method AsSystemBlockBounded(content: string, quoted: string, requested: int) returns (block: string)
    ensures block == Block(content, quoted, requested)
  {
    hide Header, Footer, Escape, TrimSpace, UTF8Boundary;
    var limit := requested;
    if limit <= 0 || limit > MAX_PROMPT_BYTES {
      limit := MAX_PROMPT_BYTES;
    }
    var trimmed := TrimSpace(content);
    if trimmed == "" { return ""; }
    var header := Header(quoted);
    var available := limit - |header| - |Footer()|;
    if available <= 0 { return ""; }
    var payload := Escape(trimmed);
    if |payload| > available {
      var cutoff := PreviousUTF8Boundary(payload, available);
      payload := payload[..cutoff];
    }
    block := header + payload + Footer();
  }

  /** The text around a payload. */
  lemma BlockLayout(quoted: string, payload: string)
    ensures Header(quoted) + payload + Footer() ==
            "<user_memory source=" + quoted + " non_authoritative=\"true\">\n" + payload + "\n</user_memory>"
  {
    assert Header(quoted) == "<user_memory source=" + quoted + " non_authoritative=\"true\">\n";
  }

  /** A limit that is not positive, or too large, is the largest one. */
  lemma LimitMeans(limit: int)
    ensures 1 <= Limit(limit) <= 102_400 && (1 <= limit <= 102_400 ==> Limit(limit) == limit)
    ensures limit < 1 || limit > 102_400 ==> Limit(limit) == 102_400
  {
  }

  /** Escaping writes the three tag characters as entities and every other one as it is. */
  lemma EscapeMeans(before: string, c: char, rest: string)
    ensures Escape(before + [c] + rest) ==
            Escape(before)
            + (match c
               case '&' => "&amp;"
               case '<' => "&lt;"
               case '>' => "&gt;"
               case _ => [c])
            + Escape(rest)
  {
    EscapeConcat(before + [c], rest);
    EscapeConcat(before, [c]);
    EscapeOneChar(c);
  }

  /** No block exceeds the limit. */
  lemma BlockWithinLimit(content: string, quoted: string, limit: int)
    ensures |Block(content, quoted, limit)| <= Limit(limit)
  {
  }

  // -------------------------------------------------------------- containment

  predicate OccursAt(s: string, part: string, i: nat) { i + |part| <= |s| && s[i..i + |part|] == part }

  ghost predicate Contains(s: string, part: string) { exists i: nat :: OccursAt(s, part, i) }

  predicate Untagged(s: string) { '<' !in s && '>' !in s }

  /** A block, its header text apart. */
  function Frame(body: string, payload: string): string {
    "<" + body + ">" + "\n" + payload + "\n" + "<" + Closer() + ">"
  }

  function Closer(): string { "/user_memory" }

  lemma BlockIsFrame(quoted: string, payload: string)
    ensures Header(quoted) + payload + Footer() == Frame(HeaderBody(quoted), payload)
    ensures Footer() == "\n" + "<" + Closer() + ">" && ClosingTag() == "<" + Closer() + ">" && |Closer()| == 12
  {
    assert Footer() == "\n" + "<" + Closer() + ">";
  }

  lemma FrameParts(body: string, payload: string)
    ensures var f := Frame(body, payload); var h := |body|; var p := |payload|;
            && |f| == h + p + 6 + |Closer()|
            && f[0] == '<' && f[1..1 + h] == body && f[h + 1] == '>' && f[h + 2] == '\n'
            && f[h + 3..h + 3 + p] == payload && f[h + 3 + p] == '\n' && f[h + 4 + p] == '<'
            && f[h + 5 + p..h + 5 + p + |Closer()|] == Closer() && f[h + 5 + p + |Closer()|] == '>'
  {
  }

  /** The tag characters keep header text, payload and closing tag apart, so an untagged text
      occurs within one of them. */
  lemma OccurrenceIsInside(body: string, payload: string, part: string, i: nat)
    requires Untagged(part) && part != "" && OccursAt(Frame(body, payload), part, i)
    ensures var h := |body|;
            || (1 <= i && i + |part| <= 1 + h)
            || (h + 2 <= i && i + |part| <= h + 4 + |payload|)
            || (h + 5 + |payload| <= i && i + |part| <= h + 5 + |payload| + |Closer()|)
  {
    hide Frame, Closer;
    FrameParts(body, payload);
    var f := Frame(body, payload);
    forall k | i <= k < i + |part| ensures f[k] != '<' && f[k] != '>' {
      assert f[k] == f[i..i + |part|][k - i];
      assert part[k - i] in part;
    }
  }

  lemma SliceOfSlice(s: string, a: nat, b: nat, c: nat, d: nat)
    requires a <= b <= |s| && c <= d <= b - a
    ensures s[a..b][c..d] == s[a + c..a + d]
  {
    var left, right := s[a..b][c..d], s[a + c..a + d];
    forall k | 0 <= k < d - c ensures left[k] == right[k] {
      assert left[k] == s[a..b][c + k] == s[a + c + k] == right[k];
    }
  }

  /** An occurrence inside the header text shows the record prefix there. */
  lemma PrefixInBody(body: string, payload: string, part: string, i: nat)
    requires OccursAt(Frame(body, payload), part, i) && 1 <= i && i + |part| <= 1 + |body|
    requires |part| >= 5 && part[..5] == "- id="
    ensures Contains(body, "- id=")
  {
    hide Frame, Closer;
    FrameParts(body, payload);
    var f := Frame(body, payload);
    SliceOfSlice(f, 1, 1 + |body|, i - 1, i + 4);
    SliceOfSlice(f, i, i + |part|, 0, 5);
    assert f[i..i + |part|][0..5] == part[..5];
    assert OccursAt(body, "- id=", i - 1);
    assert OccursAt(body, "- id=", i - 1);
  }

  lemma CloserHasNoDash(body: string, payload: string, k: nat)
    requires |body| + 5 + |payload| <= k < |body| + 5 + |payload| + |Closer()|
    ensures Frame(body, payload)[k] != '-'
  {
    hide Frame, Closer;
    FrameParts(body, payload);
    var f := Frame(body, payload);
    var at := |body| + 5 + |payload|;
    assert f[k] == f[at..at + |Closer()|][k - at];
    NoDashInCloser(k - at);
  }

  lemma NoDashInCloser(k: nat)
    requires k < |Closer()|
    ensures Closer()[k] != '-'
  {
  }

  /** A text longer than the payload that starts like a record and ends in no space does not
      occur in the block, unless it occurs in the header. */
  lemma LongerTextDoesNotOccur(body: string, payload: string, part: string)
    requires Untagged(part) && |part| > |payload|
    requires |part| >= 5 && part[..5] == "- id=" && part[|part| - 1] != '\n'
    requires !Contains(body, "- id=")
    ensures !Contains(Frame(body, payload), part)
  {
    hide Frame, Contains;
    forall i: nat ensures !OccursAt(Frame(body, payload), part, i) {
      if OccursAt(Frame(body, payload), part, i) {
        LongerTextNotAt(body, payload, part, i);
      }
    }
    ContainsMeans(Frame(body, payload), part);
  }

  lemma ContainsMeans(s: string, part: string)
    ensures Contains(s, part) <==> exists i: nat :: OccursAt(s, part, i)
  {
  }

  lemma LongerTextNotAt(body: string, payload: string, part: string, i: nat)
    requires Untagged(part) && |part| > |payload|
    requires |part| >= 5 && part[..5] == "- id=" && part[|part| - 1] != '\n'
    requires OccursAt(Frame(body, payload), part, i)
    ensures Contains(body, "- id=")
  {
    hide Frame, Contains, Closer;
    FrameParts(body, payload);
    var f := Frame(body, payload);
    OccurrenceIsInside(body, payload, part, i);
    assert f[i] == f[i..i + |part|][0] == part[..5][0] == '-';
    assert f[i + |part| - 1] == f[i..i + |part|][|part| - 1];
    if i + |part| <= 1 + |body| {
      PrefixInBody(body, payload, part, i);
    } else if i + |part| > |body| + 4 + |payload| {
      CloserHasNoDash(body, payload, i);
    }
  }

  lemma TextHasNoTag(body: string, payload: string, k: nat)
    requires Untagged(body) && Untagged(payload)
    requires 1 <= k < |body| + 4 + |payload|
    ensures Frame(body, payload)[k] != '<'
  {
    hide Frame, Closer;
    FrameParts(body, payload);
    var f := Frame(body, payload);
    var h := |body|;
    if k < h + 1 {
      assert f[k] == f[1..1 + h][k - 1];
    } else if h + 3 <= k < h + 3 + |payload| {
      assert f[k] == f[h + 3..h + 3 + |payload|][k - h - 3];
    }
  }

  /** The closing tag stands at the end of a block and nowhere else. */
  lemma ClosingTagOnce(body: string, payload: string, i: nat)
    requires Untagged(body) && Untagged(payload) && body != "" && body[0] != '/'
    requires OccursAt(Frame(body, payload), ClosingTag(), i)
    ensures i + |ClosingTag()| == |Frame(body, payload)|
  {
    hide Frame;
    assert |Closer()| == 12;
    FrameParts(body, payload);
    var f := Frame(body, payload);
    assert f[i] == f[i..i + |ClosingTag()|][0] == '<';
    assert f[i + 1] == f[i..i + |ClosingTag()|][1] == '/';
    assert f[1] == f[1..1 + |body|][0];
    if 1 <= i < |body| + 4 + |payload| {
      TextHasNoTag(body, payload, i);
    }
  }

  // ---------------------------------------------------------------- SelectBlock

  /** The rendered records of a prefix fit the limit as a block. */
  predicate PrefixFits(records: seq<Record>, n: nat, quoted: string, limit: int)
    requires n <= |records|
  {
    |Header(quoted)| + |Escape(RenderRecords(records[..n]))| + |Footer()| <= Limit(limit)
  }

  /** A prefix fits when its block, with the text around the payload, is within the limit. */
  lemma PrefixFitsExactlyWhen(records: seq<Record>, n: nat, quoted: string, limit: int)
    requires n <= |records|
    ensures PrefixFits(records, n, quoted, limit) <==>
            var text := "<user_memory source=" + quoted + " non_authoritative=\"true\">\n"
                        + Escape(RenderRecords(records[..n])) + "\n</user_memory>";
            |text| <= if 1 <= limit <= 102_400 then limit else 102_400
  {
    hide Escape, RenderRecords, Header, Footer;
    BlockLayout(quoted, Escape(RenderRecords(records[..n])));
  }

  /** The longest prefix of at most `n` records that fits, 0 if none does. */
  function LongestPrefix(records: seq<Record>, n: nat, quoted: string, limit: int): (r: nat)
    requires n <= |records|
    ensures r <= n
  {
    if n == 0 || PrefixFits(records, n, quoted, limit) then n else LongestPrefix(records, n - 1, quoted, limit)
  }

  lemma {:induction false} LongestPrefixFits(records: seq<Record>, n: nat, quoted: string, limit: int)
    requires n <= |records|
    ensures var k := LongestPrefix(records, n, quoted, limit);
            (k > 0 ==> PrefixFits(records, k, quoted, limit))
            && forall m | k < m <= n :: !PrefixFits(records, m, quoted, limit)
  {
    hide PrefixFits;
    if n != 0 && !PrefixFits(records, n, quoted, limit) {
      LongestPrefixFits(records, n - 1, quoted, limit);
    }
  }

  /** A header without a tag in which no record seems to start. */
  ghost predicate PlainHeader(quoted: string) { Untagged(quoted) && !Contains(HeaderBody(quoted), "- id=") }

  /** What the records and the source must satisfy: trimmed texts, and such a header. */
  ghost predicate Plain(records: seq<Record>, quoted: string) {
    (forall r | r in records :: Trimmed(r.content.text)) && PlainHeader(quoted)
  }

  /** In every store the processes can reach the texts are, so only the header matters. */
  lemma ReachableIsPlain(events: seq<MemoryStore.Event>, t: MemoryStore.State, q: Query, quoted: string)
    requires MemoryStore.Run(MemoryStore.Start(), events, t) && PlainHeader(quoted)
    ensures Plain(Search(t.disk.records, q), quoted)
  {
    MemoryStore.StoredAreNormal(events, t);
    hide MemoryStore.Run, Search, PlainHeader;
    forall r | r in Search(t.disk.records, q) ensures Trimmed(r.content.text) {
      SearchedAreStored(t.disk.records, q, r);
      assert NormalContent(r.content);
    }
  }

  lemma TrimmedStays(s: string)
    requires Trimmed(s)
    ensures TrimSpace(s) == s
  {
  }

  lemma RenderedEnds(r: Record)
    requires Trimmed(r.content.text)
    ensures var s := RenderRecord(r);
            |s| >= 5 && s[..5] == "- id=" && s[|s| - 1] == r.content.text[|r.content.text| - 1]
  {
  }

  /** Rendered records start like a record and end in no space. */
  lemma {:induction false} RenderedShape(records: seq<Record>)
    requires records != [] && forall r | r in records :: Trimmed(r.content.text)
    ensures var s := RenderRecords(records);
            |s| >= 5 && s[..5] == "- id=" && !IsSpace(s[|s| - 1])
  {
    hide RenderRecord, IsSpace;
    var n := |records| - 1;
    assert records[n] in records;
    RenderedEnds(records[n]);
    if n > 0 {
      RenderedShape(records[..n]);
      var before, last := RenderRecords(records[..n]), RenderRecord(records[n]);
      var s := RenderRecords(records);
      assert s == before + "\n" + last;
      assert s[..5] == before[..5];
      assert s[|s| - 1] == last[|last| - 1];
    }
  }

  lemma RenderedIsTrimmed(records: seq<Record>)
    requires records != [] && forall r | r in records :: Trimmed(r.content.text)
    ensures TrimSpace(RenderRecords(records)) == RenderRecords(records) != ""
  {
    hide RenderRecords, RenderRecord, TrimSpace;
    RenderedShape(records);
    var s := RenderRecords(records);
    assert s[0] == s[..5][0] == '-';
    assert Trimmed(s);
    TrimmedStays(s);
  }

  lemma EscapedEnds(s: string)
    requires |s| >= 5 && s[..5] == "- id=" && !IsSpace(s[|s| - 1])
    ensures var e := Escape(s);
            |e| >= 5 && e[..5] == "- id=" && e[|e| - 1] != '\n'
  {
    hide Escape;
    var n := |s| - 1;
    assert s == "- id=" + s[5..];
    EscapeConcat("- id=", s[5..]);
    EscapePrefix();
    assert Escape(s) == "- id=" + Escape(s[5..]);
    assert s == s[..n] + [s[n]];
    EscapeConcat(s[..n], [s[n]]);
    EscapeOneChar(s[n]);
    var e, last := Escape(s), EscapeChar(s[n]);
    assert e == Escape(s[..n]) + last;
    assert e[|e| - 1] == last[|last| - 1];
  }

  lemma EscapePrefix()
    ensures Escape("- id=") == "- id="
  {
    hide ReplaceAll;
    ReplaceAbsent("- id=", '&', "&amp;");
    ReplaceAbsent("- id=", '<', "&lt;");
    ReplaceAbsent("- id=", '>', "&gt;");
  }

  lemma HeadOccurs(header: string, payload: string, footer: string)
    ensures Contains(header + payload + footer, payload)
  {
    assert OccursAt(header + payload + footer, payload, |header|);
  }

  lemma WholeBlock(body: string, quoted: string, limit: int)
    requires TrimSpace(body) == body != "" && limit > 0
    requires |Header(quoted)| + |Escape(body)| + |Footer()| <= Limit(limit) && Escape(body) != ""
    ensures var block := Block(body, quoted, limit);
            block == Header(quoted) + Escape(body) + Footer() != "" && |block| <= limit && Contains(block, Escape(body))
  {
    hide Header, Footer, Escape, TrimSpace, Contains;
    HeadOccurs(Header(quoted), Escape(body), Footer());
  }

  lemma CutBlock(body: string, quoted: string, limit: int)
    requires TrimSpace(body) == body && !Contains(HeaderBody(quoted), "- id=")
    requires |Escape(body)| >= 5 && Escape(body)[..5] == "- id=" && Escape(body)[|Escape(body)| - 1] != '\n'
    requires Untagged(Escape(body)) && |Header(quoted)| + |Escape(body)| + |Footer()| > Limit(limit)
    ensures var block := Block(body, quoted, limit);
            block == "" || !Contains(block, Escape(body))
  {
    hide Header, HeaderBody, Footer, Escape, TrimSpace, Contains, Frame;
    var payload := Escape(body);
    var available := Limit(limit) - |Header(quoted)| - |Footer()|;
    if body != "" && available > 0 {
      var cut := payload[..UTF8Boundary(payload, available)];
      BlockIsFrame(quoted, cut);
      LongerTextDoesNotOccur(HeaderBody(quoted), cut, payload);
    }
  }

  /** The test with which SelectBlock accepts a block holds exactly when nothing was cut off. */
  lemma AcceptedExactlyWhenWhole(records: seq<Record>, quoted: string, limit: int)
    requires records != [] && Plain(records, quoted) && limit > 0
    ensures var body := RenderRecords(records);
            var block := Block(body, quoted, limit);
            && (block != "" && |block| <= limit && Contains(block, Escape(body)) <==>
                PrefixFits(records, |records|, quoted, limit))
            && (PrefixFits(records, |records|, quoted, limit) ==> block == Header(quoted) + Escape(body) + Footer())
  {
    var body := RenderRecords(records);
    assert records[..|records|] == records;
    RenderedShape(records);
    RenderedIsTrimmed(records);
    EscapedEnds(body);
    EscapeInjective(body, body);
    hide RenderRecords, RenderRecord, Escape, Unescape, TrimSpace, Header, HeaderBody, Footer, Contains, Block;
    if PrefixFits(records, |records|, quoted, limit) {
      WholeBlock(body, quoted, limit);
    } else {
      CutBlock(body, quoted, limit);
    }
  }

  /** The block of the longest prefix that fits: at most the limit long, its payload exactly the
      escaped rendering of the records it names, recoverable, and its closing tag unique. */
  method SelectBlock(records: seq<Record>, quoted: string, limit: int, wasTruncated: bool)
    returns (block: string, selectedIDs: seq<string>, truncated: bool)
    requires Plain(records, quoted) && limit > 0
    ensures var k := LongestPrefix(records, |records|, quoted, limit);
            && (block == if k == 0 then "" else Header(quoted) + Escape(RenderRecords(records[..k])) + Footer())
            && |block| <= Limit(limit) && |selectedIDs| == k
            && (forall i | 0 <= i < k :: selectedIDs[i] == records[i].id)
            && (truncated <==> wasTruncated || k < |records|)
  {
    hide Header, Footer, Escape, Contains, RenderRecords, Block, RenderRecord;
    var kept: nat := |records|;
    block, truncated := "", wasTruncated;
    while kept != 0
      invariant kept <= |records|
      invariant LongestPrefix(records, kept, quoted, limit) == LongestPrefix(records, |records|, quoted, limit)
      invariant truncated <==> wasTruncated || kept < |records|
      decreases kept
    {
      var body := RenderRecords(records[..kept]);
      block := AsSystemBlockBounded(body, quoted, limit);
      AcceptedExactlyWhenWhole(records[..kept], quoted, limit);
      assert records[..kept][..kept] == records[..kept];
      var found := ContainsText(block, Escape(body));
      if block != "" && |block| <= limit && found { break; }
      kept := kept - 1;
      truncated := true;
    }
    selectedIDs := [];
    for index := 0 to kept
      invariant |selectedIDs| == index && forall i | 0 <= i < index :: selectedIDs[i] == records[i].id
    {
      selectedIDs := selectedIDs + [records[index].id];
    }
    if kept == 0 { block := ""; }
  }

  method ContainsText(s: string, part: string) returns (found: bool)
    ensures found <==> Contains(s, part)
  {
    var i := 0;
    while i + |part| <= |s|
      invariant forall j: nat | j < i :: !OccursAt(s, part, j)
      decreases |s| - i
    {
      if OccursAt(s, part, i) { return true; }
      i := i + 1;
    }
    found := false;
  }

  lemma HeaderBodyStarts(quoted: string)
    ensures HeaderBody(quoted) != "" && HeaderBody(quoted)[0] != '/'
    ensures Untagged(quoted) ==> Untagged(HeaderBody(quoted))
  {
  }

  /** What a reader of a selected block can rely on. */
  lemma SelectedBlockIntegrity(records: seq<Record>, n: nat, quoted: string, i: nat)
    requires 0 < n <= |records| && Untagged(quoted)
    ensures var body := RenderRecords(records[..n]);
            var block := Header(quoted) + Escape(body) + Footer();
            && Unescape(block[|Header(quoted)|..|block| - |Footer()|]) == body
            && (OccursAt(block, ClosingTag(), i) ==> i + |ClosingTag()| == |block|)
  {
    var body := RenderRecords(records[..n]);
    var block := Header(quoted) + Escape(body) + Footer();
    EscapeInjective(body, body);
    HeaderBodyStarts(quoted);
    hide Escape, Unescape, Header, HeaderBody, Footer, ClosingTag, Frame, RenderRecords, RenderRecord;
    assert block[|Header(quoted)|..|block| - |Footer()|] == Escape(body);
    BlockIsFrame(quoted, Escape(body));
    if OccursAt(block, ClosingTag(), i) {
      ClosingTagOnce(HeaderBody(quoted), Escape(body), i);
    }
  }

  /** Search and block together: the block is cut short exactly when it omits a candidate. */
  method ComposeBlock(records: seq<Record>, q: Query, quoted: string)
    returns (block: string, selectedIDs: seq<string>, candidates: nat, truncated: bool)
    requires Plain(Search(records, q), quoted) && q.maxBytes > 0
    ensures var found := Search(records, q);
            var k := LongestPrefix(found, |found|, quoted, q.maxBytes);
            && (block == if k == 0 then "" else Header(quoted) + Escape(RenderRecords(found[..k])) + Footer())
            && |selectedIDs| == k && forall i | 0 <= i < k :: selectedIDs[i] == found[i].id
    ensures |block| <= Limit(q.maxBytes) && candidates == |Ranking(records, q)|
    ensures truncated <==> |selectedIDs| < candidates
  {
    hide Header, Footer, Escape, RenderRecords, RenderRecord, Plain, Pick, Ranking;
    var found, wasTruncated;
    found, candidates, wasTruncated := SearchRecords(records, q);
    SearchIsShorter(records, q);
    block, selectedIDs, truncated := SelectBlock(found, quoted, q.maxBytes, wasTruncated);
  }

  lemma SearchIsShorter(records: seq<Record>, q: Query)
    ensures |Search(records, q)| <= |Ranking(records, q)|
  {
    PickWithinBudgets(Ranking(records, q), q);
  }
}
