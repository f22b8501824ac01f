/** For which texts the events themselves, whatever stays unread, depend on the chunking. */
module SseCuts {
  import opened SseEvents

  /** The position of the first CR CR LF, or the length. */
  function FirstCrCrLf(s: Bytes): (i: nat)
    ensures i <= |s| && (i < |s| ==> CrCrLfAt(s, i))
    ensures forall j: nat | j < i :: !CrCrLfAt(s, j)
  {
    if s == [] then 0
    else if CrCrLfAt(s, 0) then 0
    else
      var i := FirstCrCrLf(s[1..]);
      assert i < |s[1..]| ==> CrCrLfAt(s, i + 1);
      assert forall j: nat | 0 < j < i + 1 :: CrCrLfAt(s, j) ==> CrCrLfAt(s[1..], j - 1);
      i + 1
  }

  /** How a text ends: in an LF and some CRs, or in anything else. */
  datatype Tail = Other | LfCrs(crs: nat)

  function Next(tail: Tail, c: char): Tail {
    if c == '\n' then LfCrs(0) else if c == '\r' && tail.LfCrs? then LfCrs(tail.crs + 1) else Other
  }

  function TailOf(tail: Tail, s: Bytes): Tail
    decreases |s|
  {
    if s == [] then tail else TailOf(Next(tail, s[0]), s[1..])
  }

  /** Some LF of s follows an LF up to at most so many CRs; tail is what comes before s. */
  predicate PendingBlank(tail: Tail, s: Bytes, crs: nat)
    decreases |s|
  {
    s != [] && ((s[0] == '\n' && tail.LfCrs? && tail.crs <= crs) || PendingBlank(Next(tail, s[0]), s[1..], crs))
  }

  /** Some LF of s follows an LF up to at most as many CRs as there are bytes from it on: one CR goes when it arrives
      and one with every later byte, if the bytes come one by one. */
  predicate ComingBlank(tail: Tail, s: Bytes)
    decreases |s|
  {
    s != [] && ((s[0] == '\n' && tail.LfCrs? && tail.crs <= |s|) || ComingBlank(Next(tail, s[0]), s[1..]))
  }

  /** With this much pending and this much to come, some way of cutting what comes completes an event. */
  predicate BlankAhead(pending: Bytes, coming: Bytes) {
    PendingBlank(Other, pending, |coming|) || ComingBlank(TailOf(Other, pending), coming)
  }

  // ---- one feed ----

  lemma {:induction false} TailOfConcat(tail: Tail, a: Bytes, b: Bytes)
    ensures TailOf(tail, a + b) == TailOf(TailOf(tail, a), b)
    decreases |a|
  {
    if a == [] {
      assert a + b == b;
    } else {
      assert (a + b)[1..] == a[1..] + b;
      TailOfConcat(Next(tail, a[0]), a[1..], b);
    }
  }

  lemma {:induction false} PendingConcat(tail: Tail, a: Bytes, b: Bytes, crs: nat)
    ensures PendingBlank(tail, a + b, crs) <==> PendingBlank(tail, a, crs) || PendingBlank(TailOf(tail, a), b, crs)
    decreases |a|
  {
    if a == [] {
      assert a + b == b;
    } else {
      assert (a + b)[1..] == a[1..] + b;
      PendingConcat(Next(tail, a[0]), a[1..], b, crs);
    }
  }

  lemma {:induction false} PendingMonotone(tail: Tail, s: Bytes, crs: nat, more: nat)
    requires crs <= more && PendingBlank(tail, s, crs)
    ensures PendingBlank(tail, s, more)
    decreases |s|
  {
    if !(s[0] == '\n' && tail.LfCrs? && tail.crs <= crs) {
      PendingMonotone(Next(tail, s[0]), s[1..], crs, more);
    }
  }

  lemma {:induction false} TailOfNormal(tail: Tail, s: Bytes)
    ensures TailOf(tail, Normal(s)) == TailOf(tail, s)
    decreases |s|
  {
    if s == [] {
    } else if |s| > 1 && s[0] == '\r' && s[1] == '\n' {
      TailOfNormal(LfCrs(0), s[2..]);
      assert Normal(s)[1..] == Normal(s[2..]) && s[1..][1..] == s[2..];
    } else {
      TailOfNormal(Next(tail, s[0]), s[1..]);
      assert Normal(s)[1..] == Normal(s[1..]);
    }
  }

  /** Normalising takes one CR from in front of every LF. */
  lemma {:induction false} PendingNormal(tail: Tail, s: Bytes, crs: nat)
    requires tail.LfCrs? && tail.crs > 0 ==> s == [] || s[0] != '\n'
    ensures PendingBlank(tail, Normal(s), crs) <==> PendingBlank(tail, s, crs + 1)
    decreases |s|
  {
    if s == [] {
    } else if |s| > 1 && s[0] == '\r' && s[1] == '\n' {
      PendingNormal(LfCrs(0), s[2..], crs);
      assert Normal(s)[1..] == Normal(s[2..]) && s[1..][1..] == s[2..];
    } else {
      PendingNormal(Next(tail, s[0]), s[1..], crs);
      assert Normal(s)[1..] == Normal(s[1..]);
    }
  }

  lemma {:induction false} ComingConcat(tail: Tail, a: Bytes, b: Bytes)
    requires ComingBlank(TailOf(tail, a), b) || (a != [] && PendingBlank(tail, a, |b| + 1))
    ensures ComingBlank(tail, a + b)
    decreases |a|
  {
    if a == [] {
      assert a + b == b;
    } else {
      assert (a + b)[1..] == a[1..] + b;
      if !(a[0] == '\n' && tail.LfCrs? && tail.crs <= |b| + 1) {
        ComingConcat(Next(tail, a[0]), a[1..], b);
      }
    }
  }

  /** Feeding a chunk brings no blank line nearer than single bytes would. */
  lemma FeedBringsNoBlank(pending: Bytes, chunk: Bytes, coming: Bytes)
    requires chunk != [] && BlankAhead(Normal(pending + chunk), coming)
    ensures BlankAhead(pending, chunk + coming)
  {
    var tail := TailOf(Other, pending);
    TailOfNormal(Other, pending + chunk);
    TailOfConcat(Other, pending, chunk);
    PendingNormal(Other, pending + chunk, |coming|);
    PendingConcat(Other, pending, chunk, |coming| + 1);
    if PendingBlank(Other, pending, |coming| + 1) {
      PendingMonotone(Other, pending, |coming| + 1, |chunk + coming|);
    } else {
      ComingConcat(tail, chunk, coming);
    }
  }

  /** Feeding a single byte keeps a blank line ahead. */
  lemma ByteKeepsBlank(pending: Bytes, coming: Bytes)
    requires coming != [] && BlankAhead(pending, coming)
    ensures BlankAhead(Normal(pending + coming[..1]), coming[1..])
  {
    var tail, first, rest := TailOf(Other, pending), coming[..1], coming[1..];
    TailOfNormal(Other, pending + first);
    TailOfConcat(Other, pending, first);
    PendingNormal(Other, pending + first, |rest|);
    PendingConcat(Other, pending, first, |rest| + 1);
    assert first == [coming[0]] && first[1..] == [];
    assert TailOf(tail, first) == Next(tail, coming[0]);
  }

  /** With no CR to spare, a blank line ahead in the buffer is a blank line. */
  lemma {:induction false} PendingWithoutCrs(tail: Tail, s: Bytes, crs: nat)
    requires tail.LfCrs? && tail.crs == 0 ==> s == [] || s[0] != '\n'
    ensures FirstBlank(s) < |s| ==> PendingBlank(tail, s, crs)
    ensures PendingBlank(tail, s, 0) ==> FirstBlank(s) < |s|
    decreases |s|
  {
    if s == [] {
    } else if |s| == 1 {
      assert s[1..] == [] && !PendingBlank(Next(tail, s[0]), s[1..], 0);
    } else if s[0] == '\n' && s[1] == '\n' {
      assert PendingBlank(LfCrs(0), s[1..], crs);
    } else {
      PendingWithoutCrs(Next(tail, s[0]), s[1..], crs);
    }
  }

  // ---- all feeds ----

  /** Without a blank line ahead no way of cutting what comes completes an event. */
  lemma {:induction false} NoBlankNoEvents(pending: Bytes, chunks: seq<Bytes>)
    requires !BlankAhead(pending, Concat(chunks))
    ensures FeedAll(pending, chunks).events == []
    decreases |chunks|
  {
    if chunks == [] {
    } else if chunks[0] == [] {
      assert Concat(chunks) == Concat(chunks[1..]);
      NoBlankNoEvents(pending, chunks[1..]);
    } else {
      var next, rest := Normal(pending + chunks[0]), Concat(chunks[1..]);
      if BlankAhead(next, rest) {
        FeedBringsNoBlank(pending, chunks[0], rest);
      }
      PendingWithoutCrs(Other, next, |rest|);
      NothingPending(next);
      NoBlankNoEvents(next, chunks[1..]);
    }
  }

  function Singles(s: Bytes): seq<Bytes> {
    if s == [] then [] else [s[..1]] + Singles(s[1..])
  }

  lemma {:induction false} SinglesConcat(s: Bytes)
    ensures Concat(Singles(s)) == s
  {
    if s != [] {
      SinglesConcat(s[1..]);
      assert Singles(s)[1..] == Singles(s[1..]);
    }
  }

  /** With one ahead, single bytes complete an event. */
  lemma {:induction false} SinglesGiveEvent(pending: Bytes, coming: Bytes)
    requires FirstBlank(pending) == |pending| && BlankAhead(pending, coming)
    ensures FeedAll(pending, Singles(coming)).events != []
    decreases |coming|
  {
    PendingWithoutCrs(Other, pending, 0);
    assert coming != [];
    var chunks, next := Singles(coming), Normal(pending + coming[..1]);
    assert chunks[0] == coming[..1] && chunks[1..] == Singles(coming[1..]);
    ByteKeepsBlank(pending, coming);
    if FirstBlank(next) == |next| {
      NothingPending(next);
      SinglesGiveEvent(next, coming[1..]);
    }
  }

  lemma SomeChunk(seen: Bytes, chunks: seq<Bytes>, a: Bytes, b: Bytes)
    requires seen + Concat(chunks) == a + b && |seen| < |a|
    ensures chunks != [] && [chunks[0]] + chunks[1..] == chunks
    ensures seen + chunks[0] + Concat(chunks[1..]) == a + b
    ensures chunks[0] == [] ==> seen + Concat(chunks[1..]) == a + b
  {
    assert |seen| + |Concat(chunks)| == |seen + Concat(chunks)|;
    assert seen + (chunks[0] + Concat(chunks[1..])) == seen + chunks[0] + Concat(chunks[1..]);
  }

  /** The events of a text, and of the chunks after it. */
  function EventsAfter(seen: Bytes, chunks: seq<Bytes>): seq<Bytes> {
    Drain(Normal(seen)).events + FeedAll(Drain(Normal(seen)).pending, chunks).events
  }

  /** What is fed before the rest may be counted with what was seen. */
  lemma FedFirst(seen: Bytes, c: Bytes, later: seq<Bytes>)
    requires NoCrCrLf(seen) && c != []
    ensures EventsAfter(seen, [c] + later) == EventsAfter(seen + c, later)
  {
    FeedStep(seen, c);
    assert ([c] + later)[1..] == later;
    var r, fed := Drain(Normal(seen)), Feed(Drain(Normal(seen)).pending, c);
    PrependTwice(r.events, fed.events, FeedAll(fed.pending, later));
  }

  lemma FedNothing(seen: Bytes, later: seq<Bytes>)
    ensures EventsAfter(seen, [[]] + later) == EventsAfter(seen, later)
  {
    assert ([[]] + later)[1..] == later;
    PrependNothing(FeedAll(Drain(Normal(seen)).pending, later));
  }

  lemma CutInside(seen: Bytes, more: Bytes, a: Bytes, b: Bytes)
    requires seen + more == a + b && |a| < |seen|
    ensures seen == a + seen[|a|..] && seen[|a|..] != [] && seen[|a|..] + more == b
  {
    assert a == (a + b)[..|a|] && (seen + more)[..|a|] == seen[..|a|];
    assert b == (a + b)[|a|..] && (seen + more)[|a|..] == seen[|a|..] + more;
  }

  /** The chunk that reaches past a: its part after a, and the chunks after it. */
  lemma CrossInside(seen: Bytes, later: seq<Bytes>, a: Bytes, b: Bytes) returns (rest: seq<Bytes>)
    requires NoCrCrLf(a) && seen + Concat(later) == a + b && |a| < |seen|
    ensures Concat(rest) == b
    ensures EventsAfter(seen, later) == EventsAfter(a, rest)
  {
    CutInside(seen, Concat(later), a, b);
    var d := seen[|a|..];
    FedFirst(a, d, later);
    rest := [d] + later;
    assert rest[1..] == later;
  }

  lemma PrefixOf(seen: Bytes, more: Bytes, a: Bytes, b: Bytes)
    requires seen + more == a + b && |seen| <= |a| && NoCrCrLf(a)
    ensures seen == a[..|seen|] && NoCrCrLf(seen) && (|seen| == |a| ==> seen == a && more == b)
  {
    assert seen == (a + b)[..|seen|] && (a + b)[..|seen|] == a[..|seen|];
    assert more == (a + b)[|seen|..];
    forall i: nat ensures !CrCrLfAt(seen, i) {
      assert !CrCrLfAt(a, i);
    }
  }

  /** A chunking of a + b, seen from the end of a: the events of a, and those of some chunking of b. */
  lemma {:induction false} Crossing(seen: Bytes, chunks: seq<Bytes>, a: Bytes, b: Bytes) returns (rest: seq<Bytes>)
    requires NoCrCrLf(a) && seen + Concat(chunks) == a + b && |seen| <= |a| && b != []
    ensures Concat(rest) == b
    ensures EventsAfter(seen, chunks) == EventsAfter(a, rest)
    decreases |chunks|
  {
    PrefixOf(seen, Concat(chunks), a, b);
    if |seen| == |a| {
      rest := chunks;
    } else {
      SomeChunk(seen, chunks, a, b);
      var c, later := chunks[0], chunks[1..];
      if c == [] {
        FedNothing(seen, later);
        rest := Crossing(seen, later, a, b);
      } else {
        FedFirst(seen, c, later);
        if |seen + c| <= |a| {
          rest := Crossing(seen + c, later, a, b);
        } else {
          rest := CrossInside(seen + c, later, a, b);
        }
      }
    }
  }

  /** Fed after a, chunks of b give the events of a and then theirs. */
  lemma AfterFirst(a: Bytes, chunks: seq<Bytes>)
    ensures FeedAll([], [a] + chunks).events == EventsAfter(a, chunks)
    ensures Concat([a] + chunks) == a + Concat(chunks)
  {
    assert ([a] + chunks)[1..] == chunks && [] + a == a;
    NothingPending([]);
  }

  // ---- a CR more or less ----

  /** A text with a CR where another has an LF, if it completes events but none before, has others than that one. */
  lemma CrMakesDifference(r: Bytes, with: Bytes, without: Bytes)
    requires FirstBlank(r) == |r| && with != [] && with[0] == '\r' && without != [] && without[0] == '\n'
    requires Drain(r + with).events != []
    ensures Drain(r + with).events != Drain(r + without).events
  {
    var f, g := FirstBlank(r + with), FirstBlank(r + without);
    forall j: nat | j <= |r| ensures !BlankAt(r + with, j) {
      assert !BlankAt(r, j);
      assert j + 1 < |r| ==> (r + with)[j] == r[j] && (r + with)[j + 1] == r[j + 1];
    }
    assert f > |r|;
    if g < |r + without| {
      assert Drain(r + with).events[0] == (r + with)[..f] && Drain(r + without).events[0] == (r + without)[..g];
      assert f == g ==> (r + with)[..f][|r|] != (r + without)[..g][|r|];
    }
  }

  lemma {:induction false} DrainLeavesNoBlank(s: Bytes)
    ensures FirstBlank(Drain(s).pending) == |Drain(s).pending|
    decreases |s|
  {
    if FirstBlank(s) < |s| {
      DrainLeavesNoBlank(s[FirstBlank(s) + 2..]);
    }
  }

  /** The pending part of a text without CR CR LF: clean and without a blank line. */
  lemma PendingIsClean(a: Bytes)
    requires NoCrCrLf(a)
    ensures var r := Drain(Normal(a)).pending; NoCrLf(r) && FirstBlank(r) == |r|
  {
    NormalIsClean(a);
    DrainInSteps(Normal(a), []);
    DrainLeavesNoBlank(Normal(a));
  }

  const CRLF: Bytes := "\r\n"
  const CRCRLF: Bytes := "\r\r\n"

  lemma CrFirst(b: Bytes)
    ensures CRCRLF + b == ['\r'] + (CRLF + b) && CRLF + b == ['\r'] + ("\n" + b)
  {
  }

  lemma NormalOfCut(b: Bytes)
    ensures Normal(CRLF + b) == "\n" + Normal(b) && Normal(CRCRLF + b) == CRLF + Normal(b)
  {
    NormalOfCrLf(b);
    CrFirst(b);
    CrFirst(Normal(b));
    NormalCons('\r', CRLF + b);
  }

  /** What starts with a CR is normalised on its own behind a clean text. */
  lemma FeedAfterClean(r: Bytes, chunk: Bytes)
    requires NoCrLf(r) && chunk != [] && chunk[0] == '\r'
    ensures Feed(r, chunk) == Drain(r + Normal(chunk))
  {
    NormalOfPrefix(r, chunk);
  }

  lemma OneFeed(p: Bytes, c: Bytes)
    ensures FeedAll(p, [c]).events == Feed(p, c).events
  {
    assert [c][1..] == [];
    PrependNothing(Feed(p, c));
  }

  lemma FeedWhole(r: Bytes, b: Bytes)
    requires NoCrLf(r)
    ensures FeedAll(r, [CRCRLF + b]).events == Drain(r + (CRLF + Normal(b))).events
  {
    NormalOfCut(b);
    FeedAfterClean(r, CRCRLF + b);
    OneFeed(r, CRCRLF + b);
  }

  /** An end with a CR in front and a single LF makes no blank line. */
  lemma BlankBeforeCr(r: Bytes, end: Bytes)
    requires FirstBlank(r) == |r| && |end| == 2 && end[0] == '\r'
    ensures FirstBlank(r + end) == |r + end|
  {
    forall j: nat ensures !BlankAt(r + end, j) {
      assert !BlankAt(r, j);
      assert j + 1 < |r| ==> (r + end)[j] == r[j] && (r + end)[j + 1] == r[j + 1];
    }
  }

  lemma HalfFed(r: Bytes)
    requires NoCrLf(r) && FirstBlank(r) == |r|
    ensures Feed(r, CRCRLF) == Read([], r + CRLF)
  {
    NormalOfCut([]);
    assert CRCRLF + [] == CRCRLF && CRLF + [] == CRLF;
    FeedAfterClean(r, CRCRLF);
    BlankBeforeCr(r, CRLF);
    NothingPending(r + CRLF);
  }

  lemma RestFed(r: Bytes, b: Bytes)
    requires NoCrLf(r)
    ensures Normal(r + CRLF + b) == r + ("\n" + Normal(b))
  {
    NormalOfCut(b);
    NormalOfPrefix(r, CRLF + b);
    assert r + CRLF + b == r + (CRLF + b);
  }

  lemma ThenFeed(p: Bytes, c: Bytes, q: Bytes, d: Bytes)
    requires Feed(p, c) == Read([], q)
    ensures FeedAll(p, [c, d]).events == Feed(q, d).events
  {
    var chunks: seq<Bytes> := [c, d];
    assert chunks[1..] == [d] && [d][1..] == [];
    var r := Feed(q, d);
    assert FeedAll(q, [d]) == Prepend(r.events, Read([], r.pending));
    PrependNothing(r);
    PrependNothing(FeedAll(q, [d]));
  }

  lemma FeedCut(r: Bytes, b: Bytes)
    requires NoCrLf(r) && FirstBlank(r) == |r| && b != []
    ensures FeedAll(r, [CRCRLF, b]).events == Drain(r + ("\n" + Normal(b))).events
  {
    HalfFed(r);
    RestFed(r, b);
    ThenFeed(r, CRCRLF, r + CRLF, b);
  }

  // ---- the condition ----

  ghost predicate EventsIndependent(text: Bytes) {
    forall chunks | Concat(chunks) == text :: FeedAll([], chunks).events == InOnePiece(text).events
  }

  /** From the first CR CR LF on, which is not the end of the text, a blank line may be completed. */
  predicate CutMatters(text: Bytes) {
    var i := FirstCrCrLf(text);
    i + 3 < |text| && BlankAhead(Drain(Normal(text[..i])).pending, text[i..])
  }

  lemma BeforeFirst(text: Bytes)
    ensures NoCrCrLf(text[..FirstCrCrLf(text)])
  {
    var i := FirstCrCrLf(text);
    forall j: nat ensures !CrCrLfAt(text[..i], j) {
      assert j < i ==> !CrCrLfAt(text, j);
    }
  }

  lemma ConcatOne(text: Bytes)
    ensures Concat([text]) == text
  {
    assert [text][1..] == [] && text + [] == text;
  }

  lemma SameAsFirstPart(chunks: seq<Bytes>, a: Bytes, b: Bytes)
    requires NoCrCrLf(a) && Concat(chunks) == a + b && b != [] && !BlankAhead(Drain(Normal(a)).pending, b)
    ensures FeedAll([], chunks).events == Drain(Normal(a)).events
  {
    assert [] + Concat(chunks) == a + b;
    var rest := Crossing([], chunks, a, b);
    NothingPending([]);
    NoBlankNoEvents(Drain(Normal(a)).pending, rest);
    assert [] + FeedAll([], chunks).events == FeedAll([], chunks).events;
    assert Drain(Normal(a)).events + [] == Drain(Normal(a)).events;
  }

  lemma OnePieceToo(a: Bytes, b: Bytes)
    requires NoCrCrLf(a) && b != [] && !BlankAhead(Drain(Normal(a)).pending, b)
    ensures InOnePiece(a + b).events == Drain(Normal(a)).events
  {
    FeedOne(a + b);
    ConcatOne(a + b);
    SameAsFirstPart([a + b], a, b);
  }

  lemma NoCutChangesEvents(a: Bytes, b: Bytes)
    requires NoCrCrLf(a) && b != [] && !BlankAhead(Drain(Normal(a)).pending, b)
    ensures EventsIndependent(a + b)
  {
    OnePieceToo(a, b);
    forall chunks | Concat(chunks) == a + b ensures FeedAll([], chunks).events == InOnePiece(a + b).events {
      SameAsFirstPart(chunks, a, b);
    }
  }

  /** Three chunkings of what follows a: one has events, and if the first has any, the second has others. */
  lemma ThreeCuts(a: Bytes, c: Bytes)
    requires NoCrCrLf(a) && c != [] && BlankAhead(Drain(Normal(a)).pending, CRCRLF + c)
    ensures var r := Drain(Normal(a)).pending;
            && FeedAll(r, Singles(CRCRLF + c)).events != []
            && (FeedAll(r, [CRCRLF + c]).events != [] ==>
                FeedAll(r, [CRCRLF + c]).events != FeedAll(r, [CRCRLF, c]).events)
  {
    var r := Drain(Normal(a)).pending;
    PendingIsClean(a);
    SinglesGiveEvent(r, CRCRLF + c);
    FeedWhole(r, c);
    FeedCut(r, c);
    if Drain(r + (CRLF + Normal(c))).events != [] {
      CrMakesDifference(r, CRLF + Normal(c), "\n" + Normal(c));
    }
  }

  lemma CancelFront(front: seq<Bytes>, x: seq<Bytes>, y: seq<Bytes>)
    requires x != y
    ensures front + x != front + y
  {
    assert (front + x)[|front|..] == x && (front + y)[|front|..] == y;
  }

  lemma TwoDiffer(text: Bytes, chunks: seq<Bytes>, chunks': seq<Bytes>)
    requires Concat(chunks) == Concat(chunks') == text && FeedAll([], chunks).events != FeedAll([], chunks').events
    ensures !EventsIndependent(text)
  {
  }

  lemma SomeDiffer(a: Bytes, b: Bytes, x: seq<Bytes>, y: seq<Bytes>, z: seq<Bytes>)
    requires Concat(x) == Concat(y) == Concat(z) == b && FeedAll(Drain(Normal(a)).pending, z).events != []
    requires var r := Drain(Normal(a)).pending; FeedAll(r, x).events != [] ==>
               FeedAll(r, x).events != FeedAll(r, y).events
    ensures !EventsIndependent(a + b)
  {
    var r := Drain(Normal(a));
    AfterFirst(a, x);
    if FeedAll(r.pending, x).events == [] {
      AfterFirst(a, z);
      CancelFront(r.events, FeedAll(r.pending, x).events, FeedAll(r.pending, z).events);
      TwoDiffer(a + b, [a] + x, [a] + z);
    } else {
      AfterFirst(a, y);
      CancelFront(r.events, FeedAll(r.pending, x).events, FeedAll(r.pending, y).events);
      TwoDiffer(a + b, [a] + x, [a] + y);
    }
  }

  lemma CutChangesEvents(text: Bytes)
    requires CutMatters(text)
    ensures !EventsIndependent(text)
  {
    var i := FirstCrCrLf(text);
    var a, c := text[..i], text[i + 3..];
    BeforeFirst(text);
    assert text[i..] == CRCRLF + c && text == a + (CRCRLF + c);
    ThreeCuts(a, c);
    ConcatOne(CRCRLF + c);
    ConcatTwo(CRCRLF, c);
    SinglesConcat(CRCRLF + c);
    SomeDiffer(a, CRCRLF + c, [CRCRLF + c], [CRCRLF, c], Singles(CRCRLF + c));
  }

  /** Every way of cutting a text into chunks gives the same events exactly when no CR CR LF is followed by another
      byte, or none of the LFs from the first one on can come to follow an LF. */
  lemma EventsIndependentIff(text: Bytes)
    ensures EventsIndependent(text) <==> !CutMatters(text)
  {
    var i := FirstCrCrLf(text);
    if i + 3 >= |text| {
      forall chunks | Concat(chunks) == text ensures FeedAll([], chunks).events == InOnePiece(text).events {
        AnyChunkingAgrees(chunks);
      }
    } else if CutMatters(text) {
      CutChangesEvents(text);
    } else {
      BeforeFirst(text);
      NoCutChangesEvents(text[..i], text[i..]);
      assert text == text[..i] + text[i..];
    }
  }
}
