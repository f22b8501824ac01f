/** The incremental reader of server-sent audio events: it counts the audio bytes up to [DONE]. JSON and base64 decoding
    are a function from an event's payload to a byte count. */
module SseReader {
  import opened Options
  import opened SseEvents
  import opened SseCuts
  import opened Text

  // ---- the payload of one event ----

  predicate IsByteSpace(c: char) {
    c == ' ' || '\t' <= c <= '\r'
  }

  function TrimCr(s: Bytes): Bytes {
    if s != [] && s[|s| - 1] == '\r' then TrimCr(s[..|s| - 1]) else s
  }

  /** The position of the first line end, or the length. */
  function FirstBreak(s: Bytes): (i: nat)
    ensures i <= |s|
    ensures i < |s| ==> s[i] == '\n' || s[i] == '\r'
    ensures '\n' !in s[..i] && '\r' !in s[..i]
  {
    if s == [] || s[0] == '\n' || s[0] == '\r' then 0
    else
      var i := FirstBreak(s[1..]);
      assert s[..i + 1] == [s[0]] + s[1..][..i];
      i + 1
  }

  /** splitlines: LF, CR and CR LF end a line. */
  function Lines(s: Bytes): seq<Bytes>
    decreases |s|
  {
    var i := FirstBreak(s);
    if s == [] then []
    else if i == |s| then [s]
    else if s[i] == '\r' && i + 1 < |s| && s[i + 1] == '\n' then [s[..i]] + Lines(s[i + 2..])
    else [s[..i]] + Lines(s[i + 1..])
  }

  const DATA_SPACE: Bytes := "data: "
  const DATA: Bytes := "data:"
  const DONE: Bytes := "[DONE]"

  /** The data of a data line. */
  function DataOf(line: Bytes): Option<Bytes> {
    if DATA_SPACE <= line then Some(line[|DATA_SPACE|..])
    else if DATA <= line then Some(StripLeft(line[|DATA|..], IsByteSpace))
    else None
  }

  function DataLines(lines: seq<Bytes>): seq<Bytes> {
    if lines == [] then []
    else (match DataOf(TrimCr(lines[0])) case None => [] case Some(data) => [data]) + DataLines(lines[1..])
  }

  function Join(lines: seq<Bytes>): Bytes {
    if lines == [] then [] else if |lines| == 1 then lines[0] else lines[0] + "\n" + Join(lines[1..])
  }

  /** An event's payload; None when it has no data line. */
  function PayloadOf(event: Bytes): Option<Bytes> {
    var data := DataLines(Lines(event));
    if data == [] then None else Some(Strip(Join(data), IsByteSpace))
  }

  lemma {:induction false} DataLinesSnoc(lines: seq<Bytes>, i: nat)
    requires i < |lines|
    ensures DataLines(lines[..i + 1]) ==
              DataLines(lines[..i]) + (match DataOf(TrimCr(lines[i])) case None => [] case Some(data) => [data])
  {
    if i > 0 {
      DataLinesSnoc(lines[1..], i - 1);
      assert lines[..i + 1][1..] == lines[1..][..i] && lines[..i][1..] == lines[1..][..i - 1];
    } else {
      assert lines[..1][1..] == [];
    }
  }

  /** _extract_sse_payload */
  method ExtractSsePayload(event: Bytes) returns (payload: Option<Bytes>)
    ensures payload == PayloadOf(event)
  {
    var lines := Lines(event);
    var data: seq<Bytes> := [];
    for i := 0 to |lines|
      invariant data == DataLines(lines[..i])
    {
      DataLinesSnoc(lines, i);
      var line := TrimCr(lines[i]);
      if DATA_SPACE <= line {
        data := data + [line[|DATA_SPACE|..]];
      } else if DATA <= line {
        data := data + [StripLeft(line[|DATA|..], IsByteSpace)];
      }
    }
    assert lines[..|lines|] == lines;
    if data == [] {
      return None;
    }
    return Some(Strip(Join(data), IsByteSpace));
  }

  /** A payload that fits on one data line. */
  predicate OneLine(p: Bytes) {
    '\n' !in p && '\r' !in p && (p != [] ==> !IsByteSpace(p[0]) && !IsByteSpace(p[|p| - 1]))
  }

  /** A payload on one data line is extracted as it is. */
  lemma PayloadOfDataLine(p: Bytes)
    requires OneLine(p)
    ensures PayloadOf("data: " + p) == Some(p)
  {
    var line: Bytes := DATA_SPACE + p;
    var lines: seq<Bytes> := [line];
    assert '\n' !in line && '\r' !in line;
    assert FirstBreak(line) == |line| && Lines(line) == [line];
    assert TrimCr(line) == line && line[|DATA_SPACE|..] == p;
    assert lines[1..] == [];
    assert DataLines(lines) == [p] + DataLines([]);
    assert Join([p]) == p;
    StripNothing(p, IsByteSpace);
  }

  // ---- the stream ----

  /** What decoding a payload gives: no audio in it, that many bytes, or an exception. */
  datatype Decoded = NoAudio | Audio(size: nat) | Invalid

  /** Still reading, stopped at [DONE], or raised. */
  datatype Progress = Reading(total: nat) | Stopped(total: nat) | Raised

  function Handle(decode: Bytes -> Decoded, total: nat, payload: Option<Bytes>): Progress {
    if payload == None then Reading(total)
    else if payload.value == DONE then Stopped(total)
    else match decode(payload.value)
      case NoAudio => Reading(total)
      case Audio(size) => Reading(total + size)
      case Invalid => Raised
  }

  /** One event; nothing happens once the reader has stopped. */
  function HandleEvent(decode: Bytes -> Decoded, st: Progress, event: Bytes): Progress {
    if st.Reading? then Handle(decode, st.total, PayloadOf(event)) else st
  }

  /** The events handled one by one. */
  function Advance(decode: Bytes -> Decoded, st: Progress, events: seq<Bytes>): Progress
    decreases |events|
  {
    if events == [] then st else Advance(decode, HandleEvent(decode, st, events[0]), events[1..])
  }

  lemma {:induction false} AdvanceJoin(decode: Bytes -> Decoded, st: Progress, a: seq<Bytes>, b: seq<Bytes>)
    ensures Advance(decode, st, a + b) == Advance(decode, Advance(decode, st, a), b)
    decreases |a|
  {
    if a == [] {
      assert a + b == b;
    } else {
      AdvanceJoin(decode, HandleEvent(decode, st, a[0]), a[1..], b);
      assert (a + b)[1..] == a[1..] + b;
    }
  }

  lemma {:induction false} AdvanceStopped(decode: Bytes -> Decoded, st: Progress, events: seq<Bytes>)
    requires !st.Reading?
    ensures Advance(decode, st, events) == st
    decreases |events|
  {
    if events != [] {
      AdvanceStopped(decode, st, events[1..]);
    }
  }

  lemma AdvanceCons(decode: Bytes -> Decoded, st: Progress, event: Bytes, events: seq<Bytes>)
    ensures Advance(decode, st, [event] + events) == Advance(decode, HandleEvent(decode, st, event), events)
  {
    assert ([event] + events)[1..] == events;
  }

  /** The total up to [DONE] or the end of the stream; None for an exception. */
  function TotalOf(st: Progress): Option<nat> {
    if st.Raised? then None else Some(st.total)
  }

  /** The total over a stream's chunks. */
  function StreamTotal(decode: Bytes -> Decoded, chunks: seq<Bytes>): Option<nat> {
    TotalOf(Advance(decode, Reading(0), FeedAll([], chunks).events))
  }

  /** The inner loop: handles the complete events of the buffer, and leaves the rest. */
  method DrainPending(decode: Bytes -> Decoded, buffer: Bytes, total: nat) returns (pending: Bytes, st: Progress)
    ensures st == Advance(decode, Reading(total), Drain(buffer).events)
    ensures st.Reading? ==> pending == Drain(buffer).pending
  {
    pending, st := buffer, Reading(total);
    while FirstBlank(pending) < |pending|
      invariant st.Reading? && Drain(pending).pending == Drain(buffer).pending
      invariant Advance(decode, st, Drain(pending).events) == Advance(decode, Reading(total), Drain(buffer).events)
      decreases |pending|
    {
      var blank := FirstBlank(pending);
      var event, rest := pending[..blank], pending[blank + 2..];
      AdvanceCons(decode, st, event, Drain(rest).events);
      pending := rest;
      var payload := ExtractSsePayload(event);
      st := Handle(decode, st.total, payload);
      if !st.Reading? {
        AdvanceStopped(decode, st, Drain(rest).events);
        return;
      }
    }
  }

  /** _read_sse_audio_stream */
  method ReadSseAudioStream(decode: Bytes -> Decoded, chunks: seq<Bytes>) returns (total: Option<nat>)
    ensures total == StreamTotal(decode, chunks)
  {
    ghost var end := Advance(decode, Reading(0), FeedAll([], chunks).events);
    var pending, st := [], Reading(0);
    for i := 0 to |chunks|
      invariant st.Reading? && Advance(decode, st, FeedAll(pending, chunks[i..]).events) == end
    {
      assert chunks[i..][0] == chunks[i] && chunks[i..][1..] == chunks[i + 1..];
      ghost var first := Feed(pending, chunks[i]);
      AdvanceJoin(decode, st, first.events, FeedAll(first.pending, chunks[i + 1..]).events);
      if chunks[i] != [] {
        pending, st := DrainPending(decode, Normal(pending + chunks[i]), st.total);
        if !st.Reading? {
          AdvanceStopped(decode, st, FeedAll(first.pending, chunks[i + 1..]).events);
          return TotalOf(st);
        }
      }
    }
    assert chunks[|chunks|..] == [];
    return TotalOf(st);
  }

  /** The total of a stream does not depend on how the network cut it, unless a cut can change the events. */
  lemma TotalIgnoresChunking(decode: Bytes -> Decoded, chunks: seq<Bytes>, chunks': seq<Bytes>)
    requires Concat(chunks) == Concat(chunks') && !CutMatters(Concat(chunks))
    ensures StreamTotal(decode, chunks) == StreamTotal(decode, chunks')
  {
    EventsIndependentIff(Concat(chunks));
    assert FeedAll([], chunks).events == FeedAll([], chunks').events;
  }
}
