/** What servers send: events of data lines and other lines, with LF or CR LF line ends. However the network cuts such a
    stream, it is read as the sum of its payloads up to [DONE]. */
module SseStreams {
  import opened Options
  import opened SseEvents
  import opened SseReader
  import opened Text

  // ---- lines ----

  predicate OneRow(line: Bytes) {
    '\n' !in line && '\r' !in line
  }

  lemma {:induction false} BreakAfter(line: Bytes, rest: Bytes)
    requires OneRow(line) && (rest == [] || rest[0] == '\n' || rest[0] == '\r')
    ensures FirstBreak(line + rest) == |line|
  {
    if line == [] {
      assert line + rest == rest;
    } else {
      BreakAfter(line[1..], rest);
      assert (line + rest)[1..] == line[1..] + rest;
    }
  }

  /** A line ends at LF, CR or CR LF, and at the end of the text. */
  lemma LinesStep(line: Bytes, end: Bytes, rest: Bytes)
    requires OneRow(line) && (end == "\n" || end == "\r\n" || (end == "\r" && (rest == [] || rest[0] != '\n')))
    ensures Lines(line + end + rest) == [line] + Lines(rest)
    ensures line != [] ==> Lines(line) == [line]
  {
    BreakAfter(line, end + rest);
    BreakAfter(line, []);
    var s := line + (end + rest);
    assert line + [] == line && line + end + rest == s;
    assert s[..|line|] == line && s[|line| + |end|..] == rest && s[|line|] == end[0];
  }

  // ---- events ----

  /** A line of an event: "data: " and a value, "data:" and a value behind other white space or none, or a line that
      holds no data. */
  datatype Field = Data(value: Bytes) | Tight(spaces: Bytes, value: Bytes) | Other(line: Bytes)

  function LineOf(f: Field): Bytes {
    match f
    case Data(value) => "data: " + value
    case Tight(spaces, value) => "data:" + (spaces + value)
    case Other(line) => line
  }

  predicate FieldOk(f: Field) {
    && OneRow(LineOf(f))
    && match f
       case Data(_) => true
       case Tight(spaces, value) =>
         && (spaces == [] || spaces[0] != ' ') && (forall c | c in spaces :: c in {' ', '\t', '\U{0B}', '\U{0C}'})
         && (value == [] || value[0] !in {' ', '\t', '\U{0B}', '\U{0C}'})
       case Other(line) => line != [] && !("data:" <= line)
  }

  /** The values of the data lines. */
  function Values(fields: seq<Field>): seq<Bytes> {
    if fields == [] then [] else (if fields[0].Other? then [] else [fields[0].value]) + Values(fields[1..])
  }

  function LinesOf(fields: seq<Field>): seq<Bytes> {
    if fields == [] then [] else [LineOf(fields[0])] + LinesOf(fields[1..])
  }

  /** Each line with its end. */
  function Ended(lines: seq<Bytes>, end: Bytes): Bytes {
    if lines == [] then [] else lines[0] + end + Ended(lines[1..], end)
  }

  datatype Event = Event(fields: seq<Field>, end: Bytes)

  predicate EventOk(e: Event) {
    e.fields != [] && (forall f | f in e.fields :: FieldOk(f)) && (e.end == "\n" || e.end == "\r\n")
  }

  /** An event ends with an empty line. */
  function EventText(e: Event): Bytes {
    Ended(LinesOf(e.fields), e.end) + e.end
  }

  function StreamText(events: seq<Event>): Bytes {
    if events == [] then [] else EventText(events[0]) + StreamText(events[1..])
  }

  ghost predicate StrippedParts(s: Bytes, t: Bytes, a: Bytes, b: Bytes) {
    var space := {' ', '\t', '\n', '\U{0B}', '\U{0C}', '\r'};
    && s == a + t + b && (forall c | c in a || c in b :: c in space)
    && (t != [] ==> t[0] !in space && t[|t| - 1] !in space)
  }

  /** t is s without the white space around it. */
  ghost predicate IsStripped(s: Bytes, t: Bytes) {
    exists a: Bytes, b: Bytes :: StrippedParts(s, t, a, b)
  }

  /** The payload of an event: its data lines' values, one a line, stripped; none without a data line. */
  ghost predicate Carries(e: Event, payload: Option<Bytes>) {
    var values := Values(e.fields);
    if values == [] then payload == None else payload.Some? && IsStripped(Ended(values, "\n"), payload.value)
  }

  // ---- the payload of an event ----

  lemma LeftOfSnoc(s: Bytes, c: char)
    requires IsByteSpace(c)
    ensures StripLeft(s + [c], IsByteSpace) ==
              if StripLeft(s, IsByteSpace) == [] then [] else StripLeft(s, IsByteSpace) + [c]
  {
    if s == [] {
      assert s + [c] == [c] && [c][1..] == [];
    } else if IsByteSpace(s[0]) {
      LeftOfSnoc(s[1..], c);
      assert (s + [c])[1..] == s[1..] + [c];
    }
  }

  lemma StripSnoc(s: Bytes, c: char)
    requires IsByteSpace(c)
    ensures Strip(s + [c], IsByteSpace) == Strip(s, IsByteSpace)
  {
    LeftOfSnoc(s, c);
    var left := StripLeft(s, IsByteSpace);
    assert (left + [c])[..|left|] == left;
  }

  lemma StrippedIsStrip(s: Bytes, t: Bytes)
    requires IsStripped(s, t)
    ensures Strip(s, IsByteSpace) == t
  {
    var a, b :| StrippedParts(s, t, a, b);
    if t == [] {
      StripSpaces(s, IsByteSpace);
    } else {
      StripBoth(a, t, b, IsByteSpace);
    }
  }

  lemma {:induction false} JoinIsEnded(values: seq<Bytes>)
    requires values != []
    ensures Ended(values, "\n") == Join(values) + "\n"
  {
    if |values| == 1 {
      assert Ended(values[1..], "\n") == [];
    } else {
      JoinIsEnded(values[1..]);
    }
  }

  lemma {:induction false} AllSpaceLeft(s: Bytes)
    requires forall c | c in s :: IsByteSpace(c)
    ensures StripLeft(s, IsByteSpace) == []
  {
    if s != [] {
      AllSpaceLeft(s[1..]);
    }
  }

  lemma SpacesOff(spaces: Bytes, value: Bytes)
    requires (forall c | c in spaces :: IsByteSpace(c)) && (value == [] || !IsByteSpace(value[0]))
    ensures StripLeft(spaces + value, IsByteSpace) == value
  {
    if value == [] {
      assert spaces + value == spaces;
      AllSpaceLeft(spaces);
    } else {
      StripFront(spaces, value, IsByteSpace);
    }
  }

  lemma TightData(spaces: Bytes, value: Bytes)
    requires FieldOk(Tight(spaces, value))
    ensures DataOf("data:" + (spaces + value)) == Some(value)
  {
    var rest := spaces + value;
    var line: Bytes := "data:" + rest;
    assert line[5..] == rest;
    assert rest == [] || (rest[0] != ' ' && rest[0] == line[5]);
    assert !(DATA_SPACE <= line);
    assert value != [] ==> value[0] == line[5 + |spaces|];
    SpacesOff(spaces, value);
  }

  lemma DataOfField(f: Field)
    requires FieldOk(f)
    ensures TrimCr(LineOf(f)) == LineOf(f) && DataOf(LineOf(f)) == if f.Other? then None else Some(f.value)
  {
    match f
    case Data(value) => assert ("data: " + value)[6..] == value;
    case Tight(spaces, value) => TightData(spaces, value);
    case Other(line) => assert DATA_SPACE <= line ==> DATA <= line;
  }

  lemma {:induction false} DataLinesOfFields(fields: seq<Field>)
    requires forall f | f in fields :: FieldOk(f)
    ensures DataLines(LinesOf(fields)) == Values(fields)
  {
    if fields != [] {
      assert FieldOk(fields[0]);
      DataOfField(fields[0]);
      DataLinesOfFields(fields[1..]);
      assert LinesOf(fields)[1..] == LinesOf(fields[1..]);
    }
  }

  /** An event's text up to the end of its last line. */
  function Body(fields: seq<Field>): Bytes
    requires fields != []
  {
    var line := LineOf(fields[0]);
    if |fields| == 1 then line else line + "\n" + Body(fields[1..])
  }

  lemma {:induction false} BodyIsEnded(fields: seq<Field>)
    requires fields != []
    ensures Ended(LinesOf(fields), "\n") == Body(fields) + "\n"
    decreases |fields|
  {
    var line := LineOf(fields[0]);
    if |fields| == 1 {
      assert LinesOf(fields) == [line] && [line][1..] == [];
    } else {
      BodyIsEnded(fields[1..]);
      assert LinesOf(fields)[1..] == LinesOf(fields[1..]);
      JoinAgain(line + "\n", Body(fields[1..]), "\n");
    }
  }

  lemma LineIsRow(f: Field)
    requires FieldOk(f)
    ensures var line := LineOf(f); OneRow(line) && line != [] && line[0] != '\n' && line[|line| - 1] != '\n'
  {
    var line := LineOf(f);
    assert line[0] in line && line[|line| - 1] in line;
  }

  lemma {:induction false} BodyLines(fields: seq<Field>)
    requires fields != [] && forall f | f in fields :: FieldOk(f)
    ensures Lines(Body(fields)) == LinesOf(fields)
    decreases |fields|
  {
    LineIsRow(fields[0]);
    if |fields| == 1 {
      LinesStep(LineOf(fields[0]), "\n", []);
      assert LinesOf(fields[1..]) == [];
    } else {
      BodyLines(fields[1..]);
      LinesStep(LineOf(fields[0]), "\n", Body(fields[1..]));
    }
  }

  lemma RowEnds(line: Bytes, rest: Bytes)
    requires OneRow(line) && line != [] && line[0] != '\n'
    requires rest != [] && rest[0] != '\n' && rest[|rest| - 1] != '\n' && FirstBlank(rest) == |rest|
    ensures var s := line + "\n" + rest; s != [] && s[0] != '\n' && s[|s| - 1] != '\n' && FirstBlank(s) == |s|
  {
    BlankCons('\n', rest);
    BlankAfter(line, ['\n'] + rest);
    JoinAgain(line, "\n", rest);
  }

  lemma {:induction false} BodyHasNoBlank(fields: seq<Field>)
    requires fields != [] && forall f | f in fields :: FieldOk(f)
    ensures var body := Body(fields);
            body != [] && body[0] != '\n' && body[|body| - 1] != '\n' && FirstBlank(body) == |body|
    decreases |fields|
  {
    LineIsRow(fields[0]);
    var line := LineOf(fields[0]);
    if |fields| == 1 {
      BlankAfter(line, []);
      assert line + [] == line;
    } else {
      BodyHasNoBlank(fields[1..]);
      RowEnds(line, Body(fields[1..]));
    }
  }

  /** The payload of an event's text, whatever lines it has. */
  lemma PayloadOfEvent(e: Event, payload: Option<Bytes>)
    requires EventOk(e) && Carries(e, payload)
    ensures PayloadOf(Body(e.fields)) == payload
  {
    var values := Values(e.fields);
    BodyLines(e.fields);
    DataLinesOfFields(e.fields);
    if values != [] {
      StrippedIsStrip(Ended(values, "\n"), payload.value);
      JoinIsEnded(values);
      StripSnoc(Join(values), '\n');
    }
  }

  // ---- the events of a stream ----

  lemma NormalOfEnd(end: Bytes, rest: Bytes)
    requires end == "\n" || end == "\r\n"
    ensures Normal(end + rest) == "\n" + Normal(rest)
  {
    NormalOfCrLf(rest);
    NormalCons('\n', rest);
  }

  /** A line end, whether LF or CR LF, is read as LF. */
  lemma NormalOfLine(line: Bytes, end: Bytes, rest: Bytes)
    requires OneRow(line) && (end == "\n" || end == "\r\n")
    ensures Normal(line + end + rest) == line + "\n" + Normal(rest)
  {
    NormalOfEnd(end, rest);
    NormalOfNoCrLf(line);
    NormalSplits(line, end + rest);
    JoinAgain(line, end, rest);
    JoinAgain(line, "\n", Normal(rest));
  }

  lemma {:induction false} NormalOfLines(lines: seq<Bytes>, end: Bytes, rest: Bytes)
    requires (forall line | line in lines :: OneRow(line)) && (end == "\n" || end == "\r\n")
    ensures Normal(Ended(lines, end) + rest) == Ended(lines, "\n") + Normal(rest)
    decreases |lines|
  {
    if lines == [] {
      assert [] + rest == rest && [] + Normal(rest) == Normal(rest);
    } else {
      var line, more := lines[0], Ended(lines[1..], end);
      NormalOfLines(lines[1..], end, rest);
      JoinAgain(line + end, more, rest);
      NormalOfLine(line, end, more + rest);
      JoinAgain(line + "\n", Ended(lines[1..], "\n"), Normal(rest));
    }
  }

  lemma {:induction false} RowsOf(fields: seq<Field>)
    requires forall f | f in fields :: FieldOk(f)
    ensures forall line | line in LinesOf(fields) :: OneRow(line)
  {
    if fields != [] {
      assert FieldOk(fields[0]);
      RowsOf(fields[1..]);
    }
  }

  /** An event, with what follows it. */
  lemma NormalOfEvent(e: Event, rest: Bytes)
    requires EventOk(e)
    ensures Normal(EventText(e) + rest) == Body(e.fields) + BLANK + Normal(rest)
  {
    var lines := LinesOf(e.fields);
    RowsOf(e.fields);
    JoinAgain(Ended(lines, e.end), e.end, rest);
    NormalOfLines(lines, e.end, e.end + rest);
    NormalOfEnd(e.end, rest);
    BodyIsEnded(e.fields);
    JoinAgain(Body(e.fields) + "\n", "\n", Normal(rest));
    JoinAgain(Body(e.fields), "\n", "\n");
  }

  function Bodies(events: seq<Event>): seq<Bytes>
    requires forall e | e in events :: EventOk(e)
  {
    if events == [] then []
    else
      assert EventOk(events[0]);
      [Body(events[0].fields)] + Bodies(events[1..])
  }

  /** The start of an event whose end has not come. */
  predicate Unfinished(tail: Bytes) {
    '\r' !in tail && FirstBlank(tail) == |tail|
  }

  lemma {:induction false} DrainStream(events: seq<Event>, tail: Bytes)
    requires (forall e | e in events :: EventOk(e)) && Unfinished(tail)
    ensures Drain(Normal(StreamText(events) + tail)) == Read(Bodies(events), tail)
    decreases |events|
  {
    if events == [] {
      assert [] + tail == tail;
      NormalOfNoCrLf(tail);
      NothingPending(tail);
    } else {
      assert EventOk(events[0]);
      var rest := StreamText(events[1..]) + tail;
      JoinAgain(EventText(events[0]), StreamText(events[1..]), tail);
      NormalOfEvent(events[0], rest);
      BodyHasNoBlank(events[0].fields);
      OneEvent(Body(events[0].fields), Normal(rest));
      DrainStream(events[1..], tail);
    }
  }

  // ---- chunks ----

  /** Every CR stands in front of an LF. */
  ghost predicate CrOnlyInCrLf(s: Bytes) {
    forall i | 0 <= i < |s| && s[i] == '\r' :: i + 1 < |s| && s[i + 1] == '\n'
  }

  lemma CrOnlyJoin(a: Bytes, b: Bytes)
    requires CrOnlyInCrLf(a) && CrOnlyInCrLf(b)
    ensures CrOnlyInCrLf(a + b)
  {
    var s := a + b;
    forall i | 0 <= i < |s| && s[i] == '\r' ensures i + 1 < |s| && s[i + 1] == '\n' {
      if i < |a| {
        assert a[i] == '\r' && s[i + 1] == a[i + 1];
      } else {
        assert b[i - |a|] == '\r' && s[i + 1] == b[i - |a| + 1];
      }
    }
  }

  lemma {:induction false} CrOfLines(lines: seq<Bytes>, end: Bytes)
    requires (forall line | line in lines :: OneRow(line)) && (end == "\n" || end == "\r\n")
    ensures CrOnlyInCrLf(Ended(lines, end)) && CrOnlyInCrLf(end)
    decreases |lines|
  {
    if lines != [] {
      CrOfLines(lines[1..], end);
      assert OneRow(lines[0]);
      CrOnlyJoin(lines[0], end);
      CrOnlyJoin(lines[0] + end, Ended(lines[1..], end));
    }
  }

  lemma {:induction false} CrOfStream(events: seq<Event>)
    requires forall e | e in events :: EventOk(e)
    ensures CrOnlyInCrLf(StreamText(events))
  {
    if events != [] {
      var e := events[0];
      assert EventOk(e);
      RowsOf(e.fields);
      CrOfLines(LinesOf(e.fields), e.end);
      CrOnlyJoin(Ended(LinesOf(e.fields), e.end), e.end);
      CrOfStream(events[1..]);
      CrOnlyJoin(EventText(e), StreamText(events[1..]));
    }
  }

  // ---- the total ----

  function Plus(n: nat, total: Option<nat>): Option<nat> {
    if total == None then None else Some(n + total.value)
  }

  /** The audio bytes of the payloads before [DONE]; None if one of them raises. */
  function SentTotal(decode: Bytes -> Decoded, payloads: seq<Option<Bytes>>): Option<nat> {
    if payloads == [] || payloads[0] == Some("[DONE]") then Some(0)
    else if payloads[0] == None then SentTotal(decode, payloads[1..])
    else match decode(payloads[0].value)
      case Invalid => None
      case NoAudio => SentTotal(decode, payloads[1..])
      case Audio(size) => Plus(size, SentTotal(decode, payloads[1..]))
  }

  /** What one event adds to the total of the payloads after it. */
  lemma OnePayload(decode: Bytes -> Decoded, total: nat, payloads: seq<Option<Bytes>>)
    requires payloads != []
    ensures var next := Handle(decode, total, payloads[0]);
            Plus(total, SentTotal(decode, payloads)) ==
              if next.Reading? then Plus(next.total, SentTotal(decode, payloads[1..])) else TotalOf(next)
  {
  }

  /** Events with known payloads advance the reader to the payloads' total. */
  lemma {:induction false} AdvanceOverPayloads(decode: Bytes -> Decoded, events: seq<Bytes>,
                                               payloads: seq<Option<Bytes>>, total: nat)
    requires |events| == |payloads| && forall i | 0 <= i < |events| :: PayloadOf(events[i]) == payloads[i]
    ensures TotalOf(Advance(decode, Reading(total), events)) == Plus(total, SentTotal(decode, payloads))
    decreases |events|
  {
    if events != [] {
      var next := Handle(decode, total, payloads[0]);
      OnePayload(decode, total, payloads);
      if next.Reading? {
        AdvanceOverPayloads(decode, events[1..], payloads[1..], next.total);
      } else {
        AdvanceStopped(decode, next, events[1..]);
      }
    }
  }

  lemma {:induction false} BodiesAt(events: seq<Event>)
    requires forall e | e in events :: EventOk(e)
    ensures |Bodies(events)| == |events|
    ensures forall i | 0 <= i < |events| :: EventOk(events[i]) && Bodies(events)[i] == Body(events[i].fields)
  {
    if events != [] {
      BodiesAt(events[1..]);
    }
  }

  /** A stream of events, each with any data lines and other lines and with either line end, is read as the total of its
      payloads however it is cut into chunks; the start of a further event counts for nothing. */
  lemma ReadsWhatWasSent(decode: Bytes -> Decoded, events: seq<Event>, payloads: seq<Option<Bytes>>, tail: Bytes,
                         chunks: seq<Bytes>)
    requires (forall e | e in events :: EventOk(e)) && Unfinished(tail) && Concat(chunks) == StreamText(events) + tail
    requires |payloads| == |events| && forall i | 0 <= i < |events| :: Carries(events[i], payloads[i])
    ensures StreamTotal(decode, chunks) == SentTotal(decode, payloads)
  {
    CrOfStream(events);
    CrOnlyJoin(StreamText(events), tail);
    AnyChunkingAgrees(chunks);
    DrainStream(events, tail);
    BodiesAt(events);
    forall i | 0 <= i < |events| ensures PayloadOf(Bodies(events)[i]) == payloads[i] {
      PayloadOfEvent(events[i], payloads[i]);
    }
    AdvanceOverPayloads(decode, Bodies(events), payloads, 0);
  }
}
