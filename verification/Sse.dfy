/** The two server-sent event parsers, internal/adapter/provider/sse.go and scanSSE of
    internal/adapter/mcp/http.go, against one interpretation of the stream. Strings are byte
    sequences. Sections 9.2.5 and 9.2.6 of the WHATWG HTML Living Standard describe the format;
    unlike them the code also dispatches an unterminated last block and keeps no last event ID. */
module Sse {
  import opened Common

  datatype Record = Record(event: string, id: string, data: string)

  /** The event being assembled. */
  datatype Partial = Partial(event: string, id: string, data: seq<string>)

  const EMPTY := Partial("", "", [])

  const MAX_EVENT_BYTES := 0x10_0000

  // -------------------------------------------------------------------- lines

  /** The scanner's lines, before it drops a carriage return: text after the last newline is a
      line of its own unless it is empty. */
  function RawLines(s: string): seq<string>
    decreases |s|
  {
    if s == "" then []
    else
      var i := IndexOf(s, '\n');
      if i == |s| then [s] else [s[..i]] + RawLines(s[i + 1..])
  }

  function DropCR(s: string): string {
    if s != "" && s[|s| - 1] == '\r' then s[..|s| - 1] else s
  }

  /** The scanner drops one carriage return and the parser another. */
  function Clean(raw: string): string { DropCR(DropCR(raw)) }

  // ----------------------------------------------------------- interpretation

  function Field(line: string): string { line[..IndexOf(line, ':')] }

  function Value(line: string): string {
    var i := IndexOf(line, ':');
    if i == |line| then ""
    else
      var v := line[i + 1..];
      if v != "" && v[0] == ' ' then v[1..] else v
  }

  predicate IsComment(line: string) { line != "" && line[0] == ':' }

  predicate IsData(line: string) { line != "" && line[0] != ':' && Field(line) == "data" }

  /** Data lines joined by newlines. */
  function Join(lines: seq<string>): string {
    if lines == [] then ""
    else if |lines| == 1 then lines[0]
    else Join(lines[..|lines| - 1]) + "\n" + lines[|lines| - 1]
  }

  function Flush(p: Partial): seq<Record> {
    if p.data == [] then [] else [Record(p.event, p.id, Join(p.data))]
  }

  /** What one line makes of the event being assembled. */
  function Feed(p: Partial, line: string): Partial {
    if line == "" then EMPTY
    else if IsComment(line) then p
    else if Field(line) == "event" then p.(event := Value(line))
    else if Field(line) == "id" then p.(id := Value(line))
    else if Field(line) == "data" then p.(data := p.data + [Value(line)])
    else p
  }

  lemma FieldOf(name: string, text: string)
    requires ':' !in name
    ensures Field(name + ":" + text) == name && Field(name) == name && Value(name) == ""
    ensures Value(name + ":" + text) == if text != "" && text[0] == ' ' then text[1..] else text
  {
    IndexAfter(name, ':', text);
    var line := name + ":" + text;
    assert line == name + [':'] + text;
    hide IndexOf;
    assert line[..|name|] == name && line[|name| + 1..] == text;
  }

  /** What each kind of line does: a blank one starts over, one that begins with a colon is ignored,
      and a field is named by what stands before its first colon and has what follows for its
      value, less one space. Only event, id and data count, and data adds a line. */
  lemma LineMeans(p: Partial, name: string, text: string)
    requires name != "" && ':' !in name
    ensures var value := if text != "" && text[0] == ' ' then text[1..] else text;
            && Feed(p, "") == EMPTY && Feed(p, ":" + text) == p
            && Feed(p, name + ":" + text) ==
               (if name == "event" then p.(event := value)
                else if name == "id" then p.(id := value)
                else if name == "data" then p.(data := p.data + [value])
                else p)
            && Feed(p, name) ==
               (if name == "event" then p.(event := "")
                else if name == "id" then p.(id := "")
                else if name == "data" then p.(data := p.data + [""])
                else p)
            && (IsData(name + ":" + text) <==> name == "data") && (IsData(name) <==> name == "data")
            && !IsData("") && !IsData(":" + text)
  {
    FieldOf(name, text);
    hide Field, Value;
    assert (name + ":" + text)[0] == name[0] && name[0] in name;
  }

  /** The records a sequence of raw lines dispatches. */
  function Interpret(p: Partial, raws: seq<string>): seq<Record>
    decreases raws
  {
    if raws == [] then Flush(p)
    else
      var line := Clean(raws[0]);
      (if line == "" then Flush(p) else []) + Interpret(Feed(p, line), raws[1..])
  }

  // -------------------------------------------------------------------- limits

  function Total(lines: seq<string>): nat {
    if lines == [] then 0 else Total(lines[..|lines| - 1]) + |lines[|lines| - 1]|
  }

  /** No line fills the decoder's buffer and no event's data exceeds its limit. */
  predicate DecoderFits(p: Partial, raws: seq<string>)
    decreases raws
  {
    raws == [] ||
    var line := Clean(raws[0]);
    && |raws[0]| < MAX_EVENT_BYTES
    && (IsData(line) ==> Total(p.data) + |Value(line)| <= MAX_EVENT_BYTES)
    && DecoderFits(Feed(p, line), raws[1..])
  }

  /** The same for scanSSE, which counts a newline after every data line. */
  predicate ChunkFits(p: Partial, raws: seq<string>, limit: int)
    decreases raws
  {
    raws == [] ||
    var line := Clean(raws[0]);
    && |raws[0]| < limit
    && (IsData(line) ==> Total(p.data) + |p.data| + |Value(line)| + 1 <= limit)
    && ChunkFits(Feed(p, line), raws[1..], limit)
  }

  // ------------------------------------------------------------------- decoder

  datatype Outcome = Next(record: Record) | End | TooLarge

  lemma RawLinesStep(s: string)
    requires s != ""
    ensures var i := IndexOf(s, '\n');
            RawLines(s) == if i == |s| then [s] else [s[..i]] + RawLines(s[i + 1..])
  {
    hide IndexOf;
  }

  lemma NoLines()
    ensures RawLines("") == []
  {
  }

  /** What one raw line adds to an interpretation and asks of the limits. */
  lemma LineStep(p: Partial, raw: string, rest: seq<string>, limit: int)
    ensures var line := Clean(raw); var q := Feed(p, line);
            && Interpret(p, [raw] + rest) == (if line == "" then Flush(p) else []) + Interpret(q, rest)
            && DecoderFits(p, [raw] + rest) ==
               (|raw| < MAX_EVENT_BYTES && (IsData(line) ==> Total(p.data) + |Value(line)| <= MAX_EVENT_BYTES)
                && DecoderFits(q, rest))
            && ChunkFits(p, [raw] + rest, limit) ==
               (|raw| < limit && (IsData(line) ==> Total(p.data) + |p.data| + |Value(line)| + 1 <= limit)
                && ChunkFits(q, rest, limit))
  {
    hide Clean, Feed, Flush, IsData, Value, Total;
    assert ([raw] + rest)[0] == raw && ([raw] + rest)[1..] == rest;
  }

  lemma LinesEnd(p: Partial, limit: int)
    ensures Interpret(p, []) == Flush(p) && DecoderFits(p, []) && ChunkFits(p, [], limit)
  {
  }

  lemma TotalAppend(lines: seq<string>, line: string)
    ensures Total(lines + [line]) == Total(lines) + |line|
  {
    assert (lines + [line])[..|lines|] == lines;
  }

  /** One line off the front of the input, without its newline. */
  method TakeLine(input: string) returns (raw: string, rest: string)
    requires input != ""
    ensures RawLines(input) == [raw] + RawLines(rest) && |rest| < |input|
  {
    hide RawLines, IndexOf;
    RawLinesStep(input);
    NoLines();
    var i := IndexOf(input, '\n');
    if i == |input| {
      return input, "";
    }
    return input[..i], input[i + 1..];
  }

  class SSEDecoder {
    var rest: string
    var event: string
    var id: string
    var data: seq<string>
    var bytes: nat
    var done: bool

    ghost predicate Valid()
      reads this
    {
      bytes == Total(data)
    }

    ghost function State(): Partial
      reads this
    {
      Partial(event, id, data)
    }

    /** The records still to come. */
    ghost function Pending(): seq<Record>
      reads this
    {
      if done then [] else Interpret(State(), RawLines(rest))
    }

    /** No limit lies ahead. */
    ghost predicate Fits()
      reads this
    {
      done || DecoderFits(State(), RawLines(rest))
    }

    constructor (input: string)
      ensures Valid() && !done && State() == EMPTY && rest == input
    {
      rest, event, id, data, bytes, done := input, "", "", [], 0, false;
    }

    method Take() returns (record: Option<Record>)
      requires Valid()
      modifies this`event, this`id, this`data, this`bytes
      ensures Valid() && State() == EMPTY
      ensures record == if old(data) == [] then None else Some(Record(old(event), old(id), Join(old(data))))
    {
      if |data| == 0 {
        event, id := "", "";
        return None;
      }
      record := Some(Record(event, id, Join(data)));
      event, id, data, bytes := "", "", [], 0;
    }

    /** Each call yields the next record of the interpretation, or the end; it fails only where
        a limit is exceeded, and then for good. */
    method Read() returns (r: Outcome)
      requires Valid()
      modifies this
      ensures Valid()
      ensures r.Next? ==> old(Pending()) == [r.record] + Pending() && |rest| <= |old(rest)|
      ensures r.Next? ==> !old(done) && (done || |rest| < |old(rest)|)
      ensures r.Next? ==> Fits() == old(Fits())
      ensures r.End? ==> old(Pending()) == [] && old(Fits()) && done
      ensures r.TooLarge? ==> !old(Fits()) && done
      decreases |rest|
    {
      hide RawLines, Interpret, DecoderFits, Clean, Field, Value, Total, Join;
      NoLines();
      LinesEnd(State(), 0);
      if done { return End; }
      while rest != ""
        invariant Valid() && !done && |rest| <= |old(rest)|
        invariant old(Pending()) == Interpret(State(), RawLines(rest))
        invariant old(Fits()) == DecoderFits(State(), RawLines(rest))
        decreases |rest|
      {
        var raw;
        raw, rest := TakeLine(rest);
        LineStep(State(), raw, RawLines(rest), 0);
        if |raw| >= MAX_EVENT_BYTES {
          done := true;
          return TooLarge;
        }
        var line := Clean(raw);
        if line == "" {
          var record := Take();
          if record.Some? { return Next(record.value); }
        } else if !IsComment(line) {
          var field, value := Field(line), Value(line);
          if field == "event" {
            event := value;
          } else if field == "id" {
            id := value;
          } else if field == "data" {
            if bytes + |value| > MAX_EVENT_BYTES {
              done := true;
              return TooLarge;
            }
            TotalAppend(data, value);
            bytes := bytes + |value|;
            data := data + [value];
          }
        }
      }
      LinesEnd(State(), 0);
      done := true;
      var record := Take();
      if record.Some? { return Next(record.value); }
      return End;
    }
  }

  /** Reads records until the end or a failure. */
  method Drain(d: SSEDecoder) returns (records: seq<Record>, failed: bool)
    requires d.Valid()
    modifies d
    ensures failed <==> !old(d.Fits())
    ensures if failed then records <= old(d.Pending()) else records == old(d.Pending())
    decreases if d.done then 0 else 1 + |d.rest|
  {
    hide SSEDecoder.Pending, SSEDecoder.Fits, SSEDecoder.Valid, SSEDecoder.State;
    var r := d.Read();
    match r {
      case End => return [], false;
      case TooLarge => return [], true;
      case Next(record) =>
        records, failed := Drain(d);
        records := [record] + records;
    }
  }

  /** Reads a whole stream: the interpretation, or a failure exactly when a limit is exceeded. */
  method Decode(input: string) returns (records: seq<Record>, failed: bool)
    ensures failed <==> !DecoderFits(EMPTY, RawLines(input))
    ensures !failed ==> records == Interpret(EMPTY, RawLines(input))
    ensures records <= Interpret(EMPTY, RawLines(input))
  {
    hide Interpret, RawLines, DecoderFits;
    var d := new SSEDecoder(input);
    records, failed := Drain(d);
  }

  // ------------------------------------------------------------------- scanSSE

  /** An event as scanSSE hands it to its consumer. */
  datatype Event = Event(event: string, data: string)

  function Dispatch(records: seq<Record>): seq<Event> {
    if records == [] then [] else [Event(records[0].event, records[0].data)] + Dispatch(records[1..])
  }

  /** The data buffer: every data line with a newline. */
  function Buffer(lines: seq<string>): string {
    if lines == [] then "" else Buffer(lines[..|lines| - 1]) + lines[|lines| - 1] + "\n"
  }

  lemma {:induction false} BufferIsJoin(lines: seq<string>)
    ensures |Buffer(lines)| == Total(lines) + |lines|
    ensures lines != [] ==> Buffer(lines) == Join(lines) + "\n"
  {
    if lines != [] {
      BufferIsJoin(lines[..|lines| - 1]);
    }
  }

  lemma BufferEmpty()
    ensures Buffer([]) == ""
  {
  }

  lemma FlushDispatched(p: Partial)
    ensures Dispatch(Flush(p)) == if p.data == [] then [] else [Event(p.event, Join(p.data))]
  {
    hide Join;
  }

  lemma BufferAppend(lines: seq<string>, line: string)
    ensures Buffer(lines + [line]) == Buffer(lines) + line + "\n"
  {
    assert (lines + [line])[..|lines|] == lines;
  }

  lemma {:induction false} DispatchConcat(a: seq<Record>, b: seq<Record>)
    ensures Dispatch(a + b) == Dispatch(a) + Dispatch(b)
  {
    if a == [] {
      assert a + b == b;
    } else {
      assert (a + b)[1..] == a[1..] + b;
      DispatchConcat(a[1..], b);
    }
  }

  /** What the limited reader lets through. */
  function Limited(input: string, bodyLimit: int): string
    requires bodyLimit > 0
  {
    if |input| > bodyLimit then input[..bodyLimit + 1] else input
  }

  /** The consumer accepts every event. The scan fails exactly when a limit is exceeded, having
      dispatched only events of the part it read. */
  method ScanSSE(input: string, bodyLimit: int, chunkLimit: int) returns (events: seq<Event>, ok: bool)
    ensures ok <==> bodyLimit > 0 && chunkLimit > 0 && |input| <= bodyLimit
                    && ChunkFits(EMPTY, RawLines(input), chunkLimit)
    ensures ok ==> events == Dispatch(Interpret(EMPTY, RawLines(input)))
    ensures bodyLimit > 0 ==> events <= Dispatch(Interpret(EMPTY, RawLines(Limited(input, bodyLimit))))
  {
    hide RawLines, Interpret, ChunkFits, Clean, Field, Value, Total, Join, Buffer, Dispatch;
    events, ok := [], false;
    if bodyLimit <= 0 || chunkLimit <= 0 { return; }
    var rest := Limited(input, bodyLimit);
    var eventName, data := "", "";
    BufferEmpty();
    ghost var all := Interpret(EMPTY, RawLines(rest));
    ghost var p := EMPTY;
    while rest != ""
      invariant p.event == eventName && Buffer(p.data) == data
      invariant Dispatch(all) == events + Dispatch(Interpret(p, RawLines(rest)))
      invariant ChunkFits(EMPTY, RawLines(Limited(input, bodyLimit)), chunkLimit) ==
                ChunkFits(p, RawLines(rest), chunkLimit)
      decreases |rest|
    {
      var raw;
      raw, rest := TakeLine(rest);
      LineStep(p, raw, RawLines(rest), chunkLimit);
      BufferIsJoin(p.data);
      if |raw| >= chunkLimit { return; }
      var line := Clean(raw);
      FlushDispatched(p);
      DispatchConcat(Flush(p), Interpret(EMPTY, RawLines(rest)));
      if line == "" {
        if |data| != 0 {
          events := events + [Event(eventName, data[..|data| - 1])];
          data := "";
        }
        eventName := "";
      } else if !IsComment(line) {
        var field, value := Field(line), Value(line);
        if field == "event" {
          eventName := value;
        } else if field == "data" {
          if |data| + |value| + 1 > chunkLimit { return; }
          BufferAppend(p.data, value);
          data := data + value + "\n";
        }
      }
      ghost var q := Feed(p, line);
      if line == "" {
        assert Dispatch(Interpret(p, [raw] + RawLines(rest))) ==
               Dispatch(Flush(p)) + Dispatch(Interpret(q, RawLines(rest)));
      } else {
        assert Interpret(p, [raw] + RawLines(rest)) == Interpret(q, RawLines(rest));
      }
      p := q;
    }
    if |input| > bodyLimit { return; }
    NoLines();
    LinesEnd(p, chunkLimit);
    BufferIsJoin(p.data);
    FlushDispatched(p);
    if |data| != 0 {
      events := events + [Event(eventName, data[..|data| - 1])];
    }
    ok := true;
  }

  /** Where neither parser hits a limit they yield the same events. */
  method SameEvents(input: string, bodyLimit: int, chunkLimit: int)
    returns (records: seq<Record>, failed: bool, events: seq<Event>, ok: bool)
    ensures !failed && ok ==> events == Dispatch(records)
  {
    records, failed := Decode(input);
    events, ok := ScanSSE(input, bodyLimit, chunkLimit);
  }

  // ------------------------------------------------------------------ printing

  /** The lines of a text, always at least one. */
  function Split(s: string): (r: seq<string>)
    ensures r != []
    decreases |s|
  {
    var i := IndexOf(s, '\n');
    if i == |s| then [s] else [s[..i]] + Split(s[i + 1..])
  }

  function PrintData(lines: seq<string>): string {
    if lines == [] then "" else "data: " + lines[0] + "\n" + PrintData(lines[1..])
  }

  function PrintEvent(e: Event): string {
    (if e.event == "" then "" else "event: " + e.event + "\n") + PrintData(Split(e.data)) + "\n"
  }

  function Print(es: seq<Event>): string {
    if es == [] then "" else PrintEvent(es[0]) + Print(es[1..])
  }

  function CleanAll(lines: seq<string>): seq<string> {
    if lines == [] then [] else [Clean(lines[0])] + CleanAll(lines[1..])
  }

  /** An event without the carriage returns that end its name and its data lines. */
  function Stripped(e: Event): Event { Event(Clean(e.event), Join(CleanAll(Split(e.data)))) }

  function StrippedAll(es: seq<Event>): seq<Event> {
    if es == [] then [] else [Stripped(es[0])] + StrippedAll(es[1..])
  }

  /** A text without newlines in front of a newline is a raw line of its own. */
  lemma RawLinesPrepend(line: string, rest: string)
    requires '\n' !in line
    ensures RawLines(line + "\n" + rest) == [line] + RawLines(rest)
  {
    var s := line + "\n" + rest;
    IndexAfter(line, '\n', rest);
    hide IndexOf, RawLines;
    RawLinesStep(s);
    assert s[..|line|] == line && s[|line| + 1..] == rest;
  }

  lemma DropCRAfter(prefix: string, s: string)
    requires prefix != "" && prefix[|prefix| - 1] != '\r'
    ensures DropCR(prefix + s) == prefix + DropCR(s)
  {
    if s == "" {
      assert prefix + s == prefix;
    } else {
      assert (prefix + s)[..|prefix + s| - 1] == prefix + s[..|s| - 1];
    }
  }

  lemma FieldParts(name: string, value: string)
    requires name != "" && ':' !in name
    ensures var line := name + ": " + value;
            !IsComment(line) && Field(line) == name && Value(line) == value
  {
    var line, after := name + ": " + value, " " + value;
    assert line == name + [':'] + after;
    IndexAfter(name, ':', after);
    hide IndexOf;
    assert line[0] == name[0] && name[0] in name;
    assert line[..|name|] == name && line[|name| + 1..] == after;
    assert after[1..] == value;
  }

  /** A printed field line is read back without the carriage returns that end it. */
  lemma FieldLine(name: string, value: string)
    requires name != "" && ':' !in name
    ensures var line := Clean(name + ": " + value);
            line != "" && !IsComment(line) && Field(line) == name && Value(line) == Clean(value)
  {
    var prefix := name + ": ";
    DropCRAfter(prefix, value);
    DropCRAfter(prefix, DropCR(value));
    FieldParts(name, Clean(value));
    hide Field, Value, DropCR, IsComment;
    assert Clean(prefix + value) == name + ": " + Clean(value);
  }

  /** The data lines of one event, read after any partial event. */
  lemma {:induction false} DataRead(p: Partial, lines: seq<string>, tail: string)
    requires forall l | l in lines :: '\n' !in l
    ensures Interpret(p, RawLines(PrintData(lines) + tail)) ==
            Interpret(p.(data := p.data + CleanAll(lines)), RawLines(tail))
    decreases lines
  {
    hide RawLines, Clean, Field, Value, Interpret, IsComment, Join;
    if lines == [] {
      assert PrintData(lines) + tail == tail;
      assert p.data + CleanAll(lines) == p.data;
    } else {
      var l := lines[0];
      var rest := PrintData(lines[1..]) + tail;
      assert PrintData(lines) + tail == ("data: " + l) + "\n" + rest;
      assert '\n' !in "data: " + l;
      RawLinesPrepend("data: " + l, rest);
      LineStep(p, "data: " + l, RawLines(rest), 0);
      FieldLine("data", l);
      var q := p.(data := p.data + [Clean(l)]);
      assert "data" + ": " + l == "data: " + l;
      DataRead(q, lines[1..], tail);
      assert q.data + CleanAll(lines[1..]) == p.data + CleanAll(lines);
    }
  }

  lemma {:induction false} SplitLines(s: string)
    ensures (forall l | l in Split(s) :: '\n' !in l) && CleanAll(Split(s)) != []
    decreases |s|
  {
    var i := IndexOf(s, '\n');
    hide Clean;
    if i < |s| {
      SplitLines(s[i + 1..]);
    }
  }

  lemma EventRead(e: Event, tail: string)
    requires '\n' !in e.event
    ensures Interpret(EMPTY, RawLines(PrintEvent(e) + tail)) ==
            [Record(Clean(e.event), "", Stripped(e).data)] + Interpret(EMPTY, RawLines(tail))
  {
    var lines := Split(e.data);
    SplitLines(e.data);
    BlankIsClean();
    hide RawLines, Clean, Field, Value, Interpret, IsComment, Join, Split, CleanAll, PrintData;
    var p := EMPTY.(event := Clean(e.event));
    var body := PrintData(lines) + ("\n" + tail);
    if e.event == "" {
      assert PrintEvent(e) + tail == body;
    } else {
      assert PrintEvent(e) + tail == ("event: " + e.event) + "\n" + body;
      assert '\n' !in "event: " + e.event;
      RawLinesPrepend("event: " + e.event, body);
      LineStep(EMPTY, "event: " + e.event, RawLines(body), 0);
      FieldLine("event", e.event);
      assert "event" + ": " + e.event == "event: " + e.event;
    }
    assert Interpret(EMPTY, RawLines(PrintEvent(e) + tail)) == Interpret(p, RawLines(body));
    DataRead(p, lines, "\n" + tail);
    var q := p.(data := CleanAll(lines));
    assert p.data + CleanAll(lines) == CleanAll(lines);
    assert "\n" + tail == "" + "\n" + tail;
    RawLinesPrepend("", tail);
    LineStep(q, "", RawLines(tail), 0);
  }

  lemma BlankIsClean()
    ensures Clean("") == ""
  {
  }

  /** Parsing a printed list of events gives the list back, less the carriage returns that end
      names and data lines. */
  lemma {:induction false} PrintThenInterpret(es: seq<Event>)
    requires forall e | e in es :: '\n' !in e.event
    ensures Dispatch(Interpret(EMPTY, RawLines(Print(es)))) == StrippedAll(es)
  {
    hide RawLines, Interpret, Clean, PrintEvent, Stripped;
    if es == [] {
      NoLines();
      LinesEnd(EMPTY, 0);
    } else {
      PrintThenInterpret(es[1..]);
      EventRead(es[0], Print(es[1..]));
      StrippedName(es[0]);
      DispatchConcat([Record(Clean(es[0].event), "", Stripped(es[0]).data)],
                     Interpret(EMPTY, RawLines(Print(es[1..]))));
    }
  }

  lemma StrippedName(e: Event)
    ensures Stripped(e).event == Clean(e.event)
  {
  }

  predicate EndsInCR(s: string) { s != "" && s[|s| - 1] == '\r' }

  /** Neither the name nor a data line ends in a carriage return. */
  predicate Survives(e: Event) { !EndsInCR(e.event) && forall l | l in Split(e.data) :: !EndsInCR(l) }

  lemma {:induction false} CleanAllLength(lines: seq<string>)
    ensures |CleanAll(lines)| == |lines| && Sum(CleanAll(lines)) <= Sum(lines)
    ensures Sum(CleanAll(lines)) == Sum(lines) <==> forall l | l in lines :: !EndsInCR(l)
    ensures (forall l | l in lines :: !EndsInCR(l)) ==> CleanAll(lines) == lines
  {
    if lines != [] {
      CleanAllLength(lines[1..]);
      assert forall l :: l in lines <==> l == lines[0] || l in lines[1..];
      assert (forall l | l in lines :: !EndsInCR(l)) <==>
             !EndsInCR(lines[0]) && forall l | l in lines[1..] :: !EndsInCR(l);
      assert |Clean(lines[0])| == |lines[0]| <==> !EndsInCR(lines[0]);
    }
  }

  function Sum(lines: seq<string>): nat { if lines == [] then 0 else |lines[0]| + Sum(lines[1..]) }

  lemma {:induction false} SumTotal(lines: seq<string>)
    ensures Sum(lines) == Total(lines)
  {
    if |lines| > 1 {
      var n := |lines| - 1;
      SumTotal(lines[..n]);
      SumTotal(lines[1..]);
      SumTotal(lines[1..][..n - 1]);
      assert lines[..n][1..] == lines[1..][..n - 1];
    } else if |lines| == 1 {
      assert lines[..0] == [] && lines[1..] == [];
    }
  }

  lemma {:induction false} JoinSplit(s: string)
    ensures Join(Split(s)) == s
    decreases |s|
  {
    var i := IndexOf(s, '\n');
    JoinOne(s);
    hide IndexOf, Join;
    if i < |s| {
      JoinSplit(s[i + 1..]);
      JoinPrepend(s[..i], Split(s[i + 1..]));
      assert s == s[..i] + "\n" + s[i + 1..];
    }
  }

  lemma JoinOne(s: string)
    ensures Join([s]) == s
  {
  }

  lemma {:induction false} JoinPrepend(a: string, lines: seq<string>)
    requires lines != []
    ensures Join([a] + lines) == a + "\n" + Join(lines)
  {
    var all := [a] + lines;
    if |lines| == 1 {
      assert all[..1] == [a];
    } else {
      var n := |lines| - 1;
      JoinPrepend(a, lines[..n]);
      assert all[..|all| - 1] == [a] + lines[..n];
    }
  }

  lemma JoinLength(lines: seq<string>)
    requires lines != []
    ensures |Join(lines)| == Sum(lines) + |lines| - 1
  {
    BufferIsJoin(lines);
    SumTotal(lines);
  }

  /** An event comes back unchanged exactly when nothing in it ends in a carriage return. */
  lemma StrippedExactlyWhen(e: Event)
    ensures Stripped(e) == e <==> Survives(e)
  {
    var lines := Split(e.data);
    CleanAllLength(lines);
    JoinSplit(e.data);
    JoinLength(lines);
    JoinLength(CleanAll(lines));
  }

  lemma {:induction false} StrippedAllExactlyWhen(es: seq<Event>)
    ensures StrippedAll(es) == es <==> forall e | e in es :: Survives(e)
  {
    hide Survives, Stripped;
    if es != [] {
      StrippedExactlyWhen(es[0]);
      StrippedAllExactlyWhen(es[1..]);
      assert forall e :: e in es <==> e == es[0] || e in es[1..];
    }
  }

  /** The round trip: printing and parsing is the identity exactly on lists in which no name and
      no data line ends in a carriage return. */
  lemma RoundTrip(es: seq<Event>)
    requires forall e | e in es :: '\n' !in e.event
    ensures Dispatch(Interpret(EMPTY, RawLines(Print(es)))) == es <==> forall e | e in es :: Survives(e)
  {
    PrintThenInterpret(es);
    StrippedAllExactlyWhen(es);
  }
}
