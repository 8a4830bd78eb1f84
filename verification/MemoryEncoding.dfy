/** How long the records file of internal/adapter/memory/records.go is: the length of the JSON
    text json.Marshal gives, before the newline a save appends. */
module MemoryEncoding {
  import opened Common
  import opened Ordering
  import opened MemoryRecords

  /** The characters JSON escapes, and those encoding/json escapes for HTML. */
  function CharLength(c: char): nat {
    if c in "\"\\" || c in "\t\n\r" || c as int == 8 || c as int == 12 then 2
    else if c as int < 0x20 || c in "<>&" then 6
    else 1
  }

  /** The line and paragraph separators, three bytes each, are escaped too. */
  predicate Separator(s: string) {
    |s| >= 3 && s[0] as int == 0xE2 && s[1] as int == 0x80 && s[2] as int in {0xA8, 0xA9}
  }

  function EscapedLength(s: string): nat {
    if s == "" then 0
    else if Separator(s) then 6 + EscapedLength(s[3..])
    else CharLength(s[0]) + EscapedLength(s[1..])
  }

  function DecimalLength(n: nat): nat { if n < 10 then 1 else DecimalLength(n / 10) + 1 }

  /** The digits of a fraction of a second without its trailing zeros. */
  function FractionDigits(fraction: nat, width: nat): nat
    decreases width
  {
    if width == 0 || fraction % 10 != 0 then width else FractionDigits(fraction / 10, width - 1)
  }

  const SECOND := 1_000_000_000

  /** A time in nanoseconds, printed by RFC 3339 with the fraction it needs, in UTC. */
  function StampLength(time: int): nat {
    var fraction := time % SECOND;
    if fraction == 0 then 20 else 21 + FractionDigits(fraction, 9)
  }

  function ScopeLength(s: Scope): nat {
    match s
    case User => 4
    case Workspace => 9
    case Repository => 10
  }

  function CategoryLength(c: Category): nat {
    match c
    case Preference => 10
    case Convention => 10
    case Fact => 4
  }

  const DIGEST_LENGTH := 71

  /** A quoted member with its comma: two pairs of quotes, a colon and the comma. */
  function Member(key: string, value: nat): nat { |key| + value + 6 }

  /** The braces, less the comma the last member does not have. */
  function RecordLength(r: Record): nat {
    1 + Member("id", EscapedLength(r.id)) + Member("scope", ScopeLength(r.content.scope))
    + (if r.content.scopeID == "" then 0 else Member("scope_id", EscapedLength(r.content.scopeID)))
    + Member("category", CategoryLength(r.content.category)) + Member("text", EscapedLength(r.content.text))
    + Member("source", EscapedLength(r.content.source)) + Member("created_at", StampLength(r.created))
    + Member("updated_at", StampLength(r.updated))
    + (if r.content.expires.None? then 0 else Member("expires_at", StampLength(r.content.expires.value)))
    + Member("digest", DIGEST_LENGTH)
  }

  /** The records, each with a comma. */
  function RecordsLength(records: seq<Record>): nat {
    if records == [] then 0 else RecordLength(records[0]) + 1 + RecordsLength(records[1..])
  }

  /** The version, the generation, the records in brackets and the digest. */
  function Encoded(f: File): nat {
    |"{'version':1,'generation':"| + DecimalLength(f.generation)
    + |",'records':["| + (if f.records == [] then 0 else RecordsLength(f.records) - 1)
    + |"],'digest':''}"| + DIGEST_LENGTH
  }

  // ------------------------------------------------------------ the text itself

  function Hex(n: nat): char
    requires n < 16
  {
    "0123456789abcdef"[n]
  }

  /** How JSON writes a character. */
  function CharText(c: char): string {
    if c == '\"' then "\\\"" else if c == '\\' then "\\\\"
    else if c == '\n' then "\\n" else if c == '\r' then "\\r" else if c == '\t' then "\\t"
    else if c as int == 8 then "\\b" else if c as int == 12 then "\\f"
    else if c == '<' then "\\u003c" else if c == '>' then "\\u003e" else if c == '&' then "\\u0026"
    else if c as int < 32 then "\\u00" + [Hex(c as int / 16), Hex(c as int % 16)]
    else [c]
  }

  lemma CharLengthMeans(c: char)
    ensures CharLength(c) == |CharText(c)|
  {
  }

  /** A whole text, with the line separators written as escapes. */
  function EscapedText(s: string): string {
    if s == "" then ""
    else if [0xE2 as char, 0x80 as char, 0xA8 as char] <= s then "\\u2028" + EscapedText(s[3..])
    else if [0xE2 as char, 0x80 as char, 0xA9 as char] <= s then "\\u2029" + EscapedText(s[3..])
    else CharText(s[0]) + EscapedText(s[1..])
  }

  lemma SeparatorExactlyWhen(s: string)
    ensures Separator(s) <==>
            [0xE2 as char, 0x80 as char, 0xA8 as char] <= s || [0xE2 as char, 0x80 as char, 0xA9 as char] <= s
  {
  }

  /** The length is that of the text JSON writes. */
  lemma {:induction false} EscapedLengthMeans(s: string)
    ensures EscapedLength(s) == |EscapedText(s)|
  {
    hide CharText, CharLength, Separator;
    if s != "" {
      SeparatorExactlyWhen(s);
      CharLengthMeans(s[0]);
      EscapedLengthMeans(s[1..]);
      if |s| >= 3 { EscapedLengthMeans(s[3..]); }
    }
  }

  function Power10(k: nat): nat { if k == 0 then 1 else 10 * Power10(k - 1) }

  /** A number of this many digits. */
  lemma {:induction false} DecimalLengthMeans(n: nat)
    ensures var k := DecimalLength(n); k > 0 && n < Power10(k) && (n > 0 ==> n >= Power10(k - 1))
  {
    if n >= 10 {
      DecimalLengthMeans(n / 10);
    }
  }

  /** The fraction is printed with as many digits as it needs: what is left out are zeros. */
  lemma {:induction false} FractionDigitsMeans(fraction: nat, width: nat) returns (digits: nat)
    ensures var k := FractionDigits(fraction, width);
            k <= width && fraction == digits * Power10(width - k) && (k > 0 ==> digits % 10 != 0)
    decreases width
  {
    if width == 0 || fraction % 10 != 0 {
      digits := fraction;
    } else {
      digits := FractionDigitsMeans(fraction / 10, width - 1);
      var k := FractionDigits(fraction, width);
      var power := Power10(width - 1 - k);
      assert fraction == 10 * (digits * power);
      assert Power10(width - k) == 10 * power;
    }
  }

  /** A time needs 20 bytes, or 21 and the digits of its fraction. */
  lemma StampLengthMeans(time: int)
    ensures time % 1_000_000_000 == 0 ==> StampLength(time) == |"2006-01-02T15:04:05Z"|
    ensures var digits := FractionDigits(time % SECOND, 9);
            time % 1_000_000_000 != 0 ==> StampLength(time) == |"2006-01-02T15:04:05.Z"| + digits
  {
  }

  lemma NameLengths(s: Scope, c: Category)
    ensures ScopeLength(s) == match s
                              case User => |"user"|
                              case Workspace => |"workspace"|
                              case Repository => |"repository"|
    ensures CategoryLength(c) == match c
                                 case Preference => |"preference"|
                                 case Convention => |"convention"|
                                 case Fact => |"fact"|
  {
  }

  /** A record has its fields in quotes, the optional ones only where they are set. */
  lemma RecordLengthMeans(r: Record)
    ensures RecordLength(r) ==
            |"{'id':'','scope':'','category':'','text':'','source':'','created_at':'','updated_at':'','digest':''}"|
            + EscapedLength(r.id) + ScopeLength(r.content.scope) + CategoryLength(r.content.category)
            + EscapedLength(r.content.text) + EscapedLength(r.content.source)
            + StampLength(r.created) + StampLength(r.updated) + |"sha256:"| + 64
            + (if r.content.scopeID == "" then 0 else |"'scope_id':'',"| + EscapedLength(r.content.scopeID))
            + (match r.content.expires
               case None => 0
               case Some(time) => |"'expires_at':'',"| + StampLength(time))
  {
    hide EscapedLength, StampLength, ScopeLength, CategoryLength;
    MemberLengths();
    hide Member;
  }

  lemma MemberLengths()
    ensures forall n: nat ::
              && Member("id", n) == 8 + n && Member("scope", n) == 11 + n && Member("scope_id", n) == 14 + n
              && Member("category", n) == 14 + n && Member("text", n) == 10 + n && Member("source", n) == 12 + n
              && Member("created_at", n) == 16 + n && Member("updated_at", n) == 16 + n
              && Member("expires_at", n) == 16 + n && Member("digest", n) == 12 + n
  {
  }

  /** The file: its generation, its records with commas between them, and the digest. */
  lemma EncodedMeans(f: File)
    ensures var commas := if f.records == [] then 0 else |f.records| - 1;
            Encoded(f) == |"{'version':1,'generation':,'records':[],'digest':'sha256:'}"| + 64
                          + DecimalLength(f.generation) + Bare(f.records) + commas
  {
    RecordsWithCommas(f.records);
  }

  /** The records without commas. */
  function Bare(records: seq<Record>): nat {
    if records == [] then 0 else Bare(records[..|records| - 1]) + RecordLength(records[|records| - 1])
  }

  lemma {:induction false} RecordsWithCommas(records: seq<Record>)
    ensures RecordsLength(records) == Bare(records) + |records|
  {
    hide RecordLength;
    if records != [] {
      var n := |records| - 1;
      assert records == records[..n] + [records[n]];
      RecordsLengthConcat(records[..n], [records[n]]);
      assert [records[n]][1..] == [];
      RecordsWithCommas(records[..n]);
    }
  }

  // -------------------------------------------------------------------- lengths

  lemma {:induction false} RecordsLengthConcat(a: seq<Record>, b: seq<Record>)
    ensures RecordsLength(a + b) == RecordsLength(a) + RecordsLength(b)
  {
    if a == [] {
      assert a + b == b;
    } else {
      assert (a + b)[1..] == a[1..] + b;
      RecordsLengthConcat(a[1..], b);
    }
  }

  lemma {:induction false} InsertLength(r: Record, records: seq<Record>)
    ensures RecordsLength(Insert(r, records, IdBefore)) == RecordLength(r) + 1 + RecordsLength(records)
  {
    hide RecordLength;
    if records != [] {
      if IdBefore(r, records[0]) {
        assert ([r] + records)[1..] == records;
      } else {
        InsertLength(r, records[1..]);
        var q := Insert(r, records[1..], IdBefore);
        assert ([records[0]] + q)[1..] == q;
      }
    } else {
      assert [r][1..] == [];
    }
  }

  /** The order of the records does not matter. */
  lemma {:induction false} SortedLength(records: seq<Record>)
    ensures RecordsLength(Sorted(records)) == RecordsLength(records)
  {
    hide RecordLength;
    if records != [] {
      SortedLength(records[1..]);
      InsertLength(records[0], Sorted(records[1..]));
    }
  }

  lemma {:induction false} PlainLength(s: string)
    requires forall c | c in s :: CharLength(c) == 1 && c as int < 0x80
    ensures EscapedLength(s) == |s|
  {
    if s != "" {
      assert s[0] in s;
      PlainLength(s[1..]);
    }
  }

  /** Escaping never shortens a text, and makes it at most six times as long. */
  lemma {:induction false} EscapedBounds(s: string)
    ensures |s| <= EscapedLength(s) <= 6 * |s|
  {
    if s != "" {
      EscapedBounds(if Separator(s) then s[3..] else s[1..]);
    }
  }
}
