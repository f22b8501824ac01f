/** Event-stream text, cut into chunks anywhere: which events the reader's buffer yields. A byte is a character below
    256. */
module SseEvents {
  type Bytes = string

  /** s.replace(CR LF, LF): left to right, once. */
  function Normal(s: Bytes): (r: Bytes)
    ensures |r| <= |s| && (s != [] ==> r != [])
  {
    if s == [] then []
    else if |s| > 1 && s[0] == '\r' && s[1] == '\n' then "\n" + Normal(s[2..])
    else [s[0]] + Normal(s[1..])
  }

  /** A blank line at j. */
  predicate BlankAt(s: Bytes, j: nat) {
    j + 1 < |s| && s[j] == '\n' && s[j + 1] == '\n'
  }

  /** The position of the first blank line, or the length. */
  function FirstBlank(s: Bytes): (i: nat)
    ensures i <= |s|
    ensures i < |s| ==> BlankAt(s, i)
    ensures forall j: nat | j < i :: !BlankAt(s, j)
  {
    if |s| < 2 then |s|
    else if s[0] == '\n' && s[1] == '\n' then 0
    else
      var i := FirstBlank(s[1..]);
      assert forall j: nat | 0 < j < i + 1 :: BlankAt(s, j) ==> BlankAt(s[1..], j - 1);
      assert i < |s[1..]| ==> BlankAt(s, i + 1);
      i + 1
  }

  /** The complete events of a buffer, and what is left. */
  datatype Read = Read(events: seq<Bytes>, pending: Bytes)

  function Prepend(events: seq<Bytes>, r: Read): Read {
    Read(events + r.events, r.pending)
  }

  function Drain(s: Bytes): Read
    decreases |s|
  {
    var i := FirstBlank(s);
    if i == |s| then Read([], s) else Prepend([s[..i]], Drain(s[i + 2..]))
  }

  /** One chunk: appended, normalised as a whole, drained. An empty chunk is skipped. */
  function Feed(pending: Bytes, chunk: Bytes): Read {
    if chunk == [] then Read([], pending) else Drain(Normal(pending + chunk))
  }

  function FeedAll(pending: Bytes, chunks: seq<Bytes>): Read
    decreases |chunks|
  {
    if chunks == [] then Read([], pending)
    else
      var first := Feed(pending, chunks[0]);
      Prepend(first.events, FeedAll(first.pending, chunks[1..]))
  }

  function Concat(chunks: seq<Bytes>): Bytes {
    if chunks == [] then [] else chunks[0] + Concat(chunks[1..])
  }

  // ---- normalising piece by piece ----

  ghost predicate NoCrLf(s: Bytes) {
    forall i | 0 <= i < |s| - 1 :: !(s[i] == '\r' && s[i + 1] == '\n')
  }

  /** CR CR LF at i. */
  predicate CrCrLfAt(s: Bytes, i: nat) {
    i + 2 < |s| && s[i] == '\r' && s[i + 1] == '\r' && s[i + 2] == '\n'
  }

  ghost predicate NoCrCrLf(s: Bytes) {
    forall i: nat :: !CrCrLfAt(s, i)
  }

  /** No CR CR LF with a byte after it. */
  ghost predicate NoInnerCrCrLf(s: Bytes) {
    forall i: nat | i + 3 < |s| :: !CrCrLfAt(s, i)
  }

  lemma NoCrLfTail(s: Bytes)
    requires NoCrLf(s) && s != []
    ensures NoCrLf(s[1..])
  {
    forall i | 0 <= i < |s[1..]| - 1 ensures !(s[1..][i] == '\r' && s[1..][i + 1] == '\n') {
      assert s[1..][i] == s[i + 1] && s[1..][i + 1] == s[i + 2];
    }
  }

  lemma {:induction false} NormalOfNoCrLf(s: Bytes)
    requires NoCrLf(s)
    ensures Normal(s) == s
  {
    if s != [] {
      NoCrLfTail(s);
      NormalOfNoCrLf(s[1..]);
    }
  }

  /** Normalising twice adds nothing when the first time left no CR LF behind. */
  lemma {:induction false} NormalOfPrefix(a: Bytes, b: Bytes)
    requires NoCrLf(a) && !(a != [] && a[|a| - 1] == '\r' && b != [] && b[0] == '\n')
    ensures Normal(a + b) == a + Normal(b)
    decreases |a|
  {
    if a == [] {
      assert a + b == b;
    } else {
      NoCrLfTail(a);
      assert (a + b)[1..] == a[1..] + b;
      NormalOfPrefix(a[1..], b);
      assert a == [a[0]] + a[1..];
      assert [a[0]] + (a[1..] + Normal(b)) == a + Normal(b);
    }
  }

  lemma NoCrCrLfTail(s: Bytes, n: nat)
    requires NoCrCrLf(s) && n <= |s|
    ensures NoCrCrLf(s[n..])
  {
    forall i: nat ensures !CrCrLfAt(s[n..], i) {
      assert !CrCrLfAt(s, n + i);
    }
  }

  /** Only CR CR LF leaves a CR LF behind. */
  lemma {:induction false} NormalIsClean(s: Bytes)
    requires NoCrCrLf(s)
    ensures NoCrLf(Normal(s))
    ensures Normal(s) != [] && Normal(s)[0] == '\n' ==> s[0] == '\n' || (|s| > 1 && s[0] == '\r' && s[1] == '\n')
    decreases |s|
  {
    if s == [] {
    } else if |s| > 1 && s[0] == '\r' && s[1] == '\n' {
      NoCrCrLfTail(s, 2);
      NormalIsClean(s[2..]);
      assert Normal(s) == "\n" + Normal(s[2..]);
    } else {
      NoCrCrLfTail(s, 1);
      NormalIsClean(s[1..]);
      assert !CrCrLfAt(s, 0);
      assert Normal(s) == [s[0]] + Normal(s[1..]);
    }
  }

  lemma NormalCons(c: char, s: Bytes)
    requires !(c == '\r' && s != [] && s[0] == '\n')
    ensures Normal([c] + s) == [c] + Normal(s)
  {
    assert ([c] + s)[1..] == s;
  }

  lemma StepCrLf(a: Bytes, b: Bytes)
    requires |a| > 1 && a[0] == '\r' && a[1] == '\n' && Normal(Normal(a[2..]) + b) == Normal(a[2..] + b)
    ensures Normal(Normal(a) + b) == Normal(a + b)
  {
    var rest := Normal(a[2..]);
    assert "\n" + rest + b == "\n" + (rest + b);
    NormalCons('\n', rest + b);
    assert (a + b)[2..] == a[2..] + b;
  }

  lemma StepOther(a: Bytes, b: Bytes)
    requires |a| > 1 && !(a[0] == '\r' && a[1] == '\n') && Normal(Normal(a[1..]) + b) == Normal(a[1..] + b)
    requires !(a[0] == '\r' && Normal(a[1..])[0] == '\n')
    ensures Normal(Normal(a) + b) == Normal(a + b)
  {
    var rest := Normal(a[1..]);
    assert [a[0]] + rest + b == [a[0]] + (rest + b);
    NormalCons(a[0], rest + b);
    assert a + b == [a[0]] + (a[1..] + b);
    NormalCons(a[0], a[1..] + b);
  }

  /** Normalising a first piece early changes nothing when the piece holds no CR CR LF. */
  lemma {:induction false} NormalInSteps(a: Bytes, b: Bytes)
    requires NoCrCrLf(a)
    ensures Normal(Normal(a) + b) == Normal(a + b)
    decreases |a|
  {
    if a == [] {
    } else if |a| > 1 && a[0] == '\r' && a[1] == '\n' {
      NoCrCrLfTail(a, 2);
      NormalInSteps(a[2..], b);
      StepCrLf(a, b);
    } else if |a| == 1 {
      assert Normal(a) == a;
    } else {
      NoCrCrLfTail(a, 1);
      NormalInSteps(a[1..], b);
      NormalIsClean(a[1..]);
      assert !CrCrLfAt(a, 0);
      StepOther(a, b);
    }
  }

  // ---- draining piece by piece ----

  lemma FirstBlankIs(s: Bytes, i: nat)
    requires BlankAt(s, i) && forall j: nat | j < i :: !BlankAt(s, j)
    ensures FirstBlank(s) == i
  {
    assert FirstBlank(s) <= i;
    assert BlankAt(s, FirstBlank(s));
  }

  /** The first blank line of a text stays the first when more follows. */
  lemma BlankStays(a: Bytes, b: Bytes)
    requires FirstBlank(a) < |a|
    ensures FirstBlank(a + b) == FirstBlank(a)
  {
    var i := FirstBlank(a);
    assert (a + b)[i] == a[i] && (a + b)[i + 1] == a[i + 1];
    forall j | 0 <= j < i ensures !BlankAt(a + b, j) {
      assert !BlankAt(a, j) && (a + b)[j] == a[j] && (a + b)[j + 1] == a[j + 1];
    }
    FirstBlankIs(a + b, i);
  }

  lemma BlankOfHead(s: Bytes)
    requires FirstBlank(s) < |s|
    ensures FirstBlank(s[..FirstBlank(s) + 2]) == FirstBlank(s)
  {
    var i := FirstBlank(s);
    var head := s[..i + 2];
    assert head[i] == s[i] && head[i + 1] == s[i + 1];
    forall j | 0 <= j < i ensures !BlankAt(head, j) {
      assert !BlankAt(s, j);
    }
    FirstBlankIs(head, i);
  }

  lemma NoCrLfParts(s: Bytes, n: nat)
    requires NoCrLf(s) && n <= |s|
    ensures NoCrLf(s[..n]) && NoCrLf(s[n..])
  {
    forall i | 0 <= i < |s[n..]| - 1 ensures !(s[n..][i] == '\r' && s[n..][i + 1] == '\n') {
      assert s[n..][i] == s[n + i] && s[n..][i + 1] == s[n + i + 1];
    }
  }

  lemma PrependTwice(a: seq<Bytes>, b: seq<Bytes>, r: Read)
    ensures Prepend(a, Prepend(b, r)) == Prepend(a + b, r)
  {
    assert a + (b + r.events) == a + b + r.events;
  }

  /** Draining a clean text first, and the rest with what follows later, gives the events of the whole. */
  lemma {:induction false} DrainInSteps(s: Bytes, chunk: Bytes)
    requires NoCrLf(s)
    ensures Drain(Normal(s + chunk)) == Prepend(Drain(s).events, Drain(Normal(Drain(s).pending + chunk)))
    ensures NoCrLf(Drain(s).pending)
    decreases |s|
  {
    var i := FirstBlank(s);
    if i == |s| {
      assert [] + Drain(Normal(s + chunk)).events == Drain(Normal(s + chunk)).events;
    } else {
      var head, rest := s[..i + 2], s[i + 2..];
      assert s == head + rest && s + chunk == head + (rest + chunk);
      NoCrLfParts(s, i + 2);
      NormalOfPrefix(head, rest + chunk);
      var whole := head + Normal(rest + chunk);
      assert FirstBlank(head) == i by { BlankOfHead(s); }
      BlankStays(head, Normal(rest + chunk));
      assert whole[..i] == s[..i] && whole[i + 2..] == Normal(rest + chunk);
      DrainInSteps(rest, chunk);
      PrependTwice([s[..i]], Drain(rest).events, Drain(Normal(Drain(rest).pending + chunk)));
    }
  }

  // ---- chunking ----

  /** One chunk after a text that holds no CR CR LF. */
  lemma FeedStep(seen: Bytes, chunk: Bytes)
    requires NoCrCrLf(seen) && chunk != []
    ensures Drain(Normal(seen + chunk)) == Prepend(Drain(Normal(seen)).events, Feed(Drain(Normal(seen)).pending, chunk))
  {
    NormalIsClean(seen);
    NormalInSteps(seen, chunk);
    DrainInSteps(Normal(seen), chunk);
  }

  lemma PrependNothing(r: Read)
    ensures Prepend([], r) == r && Prepend(r.events, Read([], r.pending)) == r
  {
  }

  lemma PrefixHasNone(a: Bytes, b: Bytes)
    requires NoInnerCrCrLf(a + b) && b != []
    ensures NoCrCrLf(a)
  {
    forall i: nat ensures !CrCrLfAt(a, i) {
      assert i + 3 < |a + b| ==> !CrCrLfAt(a + b, i);
    }
  }

  /** After the chunks of a text whose proper prefixes hold no CR CR LF, the reader has exactly the events of the text
      so far. */
  lemma {:induction false} FeedAllFrom(seen: Bytes, chunks: seq<Bytes>)
    requires NoInnerCrCrLf(seen + Concat(chunks)) && (Concat(chunks) == [] || NoCrCrLf(seen))
    ensures Prepend(Drain(Normal(seen)).events, FeedAll(Drain(Normal(seen)).pending, chunks)) ==
              Drain(Normal(seen + Concat(chunks)))
    decreases |chunks|
  {
    var r := Drain(Normal(seen));
    if chunks == [] {
      assert seen + [] == seen;
      PrependNothing(r);
    } else if chunks[0] == [] {
      assert Concat(chunks) == Concat(chunks[1..]);
      FeedAllFrom(seen, chunks[1..]);
      PrependNothing(FeedAll(r.pending, chunks[1..]));
    } else {
      var seen', fed := seen + chunks[0], Feed(r.pending, chunks[0]);
      assert seen + Concat(chunks) == seen' + Concat(chunks[1..]);
      FeedStep(seen, chunks[0]);
      if Concat(chunks[1..]) != [] {
        PrefixHasNone(seen', Concat(chunks[1..]));
      }
      FeedAllFrom(seen', chunks[1..]);
      PrependTwice(r.events, fed.events, FeedAll(fed.pending, chunks[1..]));
    }
  }

  /** The text fed in one piece. */
  function InOnePiece(text: Bytes): Read {
    Drain(Normal(text))
  }

  lemma AnyChunkingAgrees(chunks: seq<Bytes>)
    requires NoInnerCrCrLf(Concat(chunks))
    ensures FeedAll([], chunks) == InOnePiece(Concat(chunks))
  {
    assert [] + Concat(chunks) == Concat(chunks);
    FeedAllFrom([], chunks);
    assert Drain(Normal([])) == Read([], []);
    var all := FeedAll([], chunks);
    assert [] + all.events == all.events;
  }

  // ---- the texts that depend on the chunking ----

  /** The characters of the events and their blank lines. */
  function TextSize(events: seq<Bytes>): nat {
    if events == [] then 0 else |events[0]| + 2 + TextSize(events[1..])
  }

  function Size(r: Read): nat {
    TextSize(r.events) + |r.pending|
  }

  lemma {:induction false} TextSizeJoin(a: seq<Bytes>, b: seq<Bytes>)
    ensures TextSize(a + b) == TextSize(a) + TextSize(b)
  {
    if a == [] {
      assert a + b == b;
    } else {
      TextSizeJoin(a[1..], b);
      assert (a + b)[1..] == a[1..] + b;
    }
  }

  /** Draining moves text around and loses none. */
  lemma {:induction false} DrainKeepsSize(s: Bytes)
    ensures Size(Drain(s)) == |s|
    decreases |s|
  {
    var i := FirstBlank(s);
    if i < |s| {
      DrainKeepsSize(s[i + 2..]);
      TextSizeJoin([s[..i]], Drain(s[i + 2..]).events);
      assert [s[..i]][1..] == [];
    }
  }

  ghost predicate EndsCrLf(s: Bytes) {
    |s| >= 2 && s[|s| - 2] == '\r' && s[|s| - 1] == '\n'
  }

  /** A CR LF at the end of a text is never part of an event: it stays pending. */
  lemma {:induction false} CrLfStaysPending(s: Bytes)
    requires EndsCrLf(s)
    ensures EndsCrLf(Drain(s).pending)
    decreases |s|
  {
    var i := FirstBlank(s);
    if i < |s| {
      assert i + 2 <= |s| - 2;
      CrLfStaysPending(s[i + 2..]);
    }
  }

  lemma JoinAgain(a: Bytes, b: Bytes, c: Bytes)
    ensures a + b + c == a + (b + c)
  {
  }

  lemma {:induction false} NormalSplits(a: Bytes, b: Bytes)
    requires a == [] || a[|a| - 1] != '\r'
    ensures Normal(a + b) == Normal(a) + Normal(b)
    decreases |a|
  {
    if a == [] {
      assert a + b == b;
    } else if |a| > 1 && a[0] == '\r' && a[1] == '\n' {
      NormalSplits(a[2..], b);
      assert (a + b)[2..] == a[2..] + b;
      JoinAgain("\n", Normal(a[2..]), Normal(b));
    } else {
      NormalSplits(a[1..], b);
      assert (a + b)[1..] == a[1..] + b;
      JoinAgain([a[0]], Normal(a[1..]), Normal(b));
    }
  }

  /** Normalising CR CR LF leaves a CR LF. */
  lemma {:induction false} CrCrLfLeavesCrLf(s: Bytes)
    requires |s| >= 3 && CrCrLfAt(s, |s| - 3)
    ensures EndsCrLf(Normal(s))
    decreases |s|
  {
    if |s| == 3 {
      assert s[1..][2..] == [] && Normal(s[1..]) == "\n" + Normal([]);
    } else if s[0] == '\r' && s[1] == '\n' {
      assert |s| >= 5;
      CrCrLfLeavesCrLf(s[2..]);
    } else {
      CrCrLfLeavesCrLf(s[1..]);
    }
  }

  lemma {:induction false} CrLfShortens(s: Bytes)
    requires EndsCrLf(s)
    ensures |Normal(s)| < |s|
    decreases |s|
  {
    if !(s[0] == '\r' && s[1] == '\n') {
      CrLfShortens(s[1..]);
    }
  }

  lemma TwoPiecesSize(first: Read, b: Bytes)
    requires EndsCrLf(first.pending)
    ensures Size(Prepend(first.events, Drain(Normal(first.pending + b)))) < Size(first) + |Normal(b)|
  {
    var second := Drain(Normal(first.pending + b));
    CrLfShortens(first.pending);
    NormalSplits(first.pending, b);
    DrainKeepsSize(Normal(first.pending + b));
    TextSizeJoin(first.events, second.events);
  }

  lemma FeedTwo(a: Bytes, b: Bytes)
    requires a != [] && b != []
    ensures FeedAll([], [a, b]) == Prepend(Drain(Normal(a)).events, Drain(Normal(Drain(Normal(a)).pending + b)))
  {
    var first := Drain(Normal(a));
    assert [] + a == a && [a, b][1..] == [b] && [b][1..] == [];
    var second := Feed(first.pending, b);
    assert FeedAll(first.pending, [b]) == Prepend(second.events, FeedAll(second.pending, []));
    assert second.events + [] == second.events;
  }

  /** Cutting right after a CR CR LF that is not the end of the text gives a shorter read than one piece does. */
  lemma CutAfterCrCrLf(a: Bytes, b: Bytes)
    requires |a| >= 3 && CrCrLfAt(a, |a| - 3) && b != []
    ensures FeedAll([], [a, b]) != InOnePiece(a + b)
  {
    var first := Drain(Normal(a));
    FeedTwo(a, b);
    CrCrLfLeavesCrLf(a);
    CrLfStaysPending(Normal(a));
    TwoPiecesSize(first, b);
    DrainKeepsSize(Normal(a));
    NormalSplits(a, b);
    DrainKeepsSize(Normal(a + b));
  }

  ghost predicate ChunkingIndependent(text: Bytes) {
    forall chunks | Concat(chunks) == text :: FeedAll([], chunks) == InOnePiece(text)
  }

  lemma ConcatTwo(a: Bytes, b: Bytes)
    ensures Concat([a, b]) == a + b
  {
    assert [a, b][1..] == [b] && [b][1..] == [];
    assert Concat([b]) == b + Concat([]) && Concat([a, b]) == a + Concat([b]);
  }

  /** Every way of cutting a text into chunks gives the same events and the same rest exactly when no CR CR LF is
      followed by another byte. */
  lemma ChunkingIndependentIff(text: Bytes)
    ensures ChunkingIndependent(text) <==> NoInnerCrCrLf(text)
  {
    if NoInnerCrCrLf(text) {
      forall chunks | Concat(chunks) == text ensures FeedAll([], chunks) == InOnePiece(text) {
        AnyChunkingAgrees(chunks);
      }
    } else {
      var i: nat :| i + 3 < |text| && CrCrLfAt(text, i);
      var a, b := text[..i + 3], text[i + 3..];
      assert a + b == text && CrCrLfAt(a, |a| - 3);
      CutAfterCrCrLf(a, b);
      ConcatTwo(a, b);
    }
  }

  const BLANK: Bytes := "\n\n"
  const INNER: Bytes := "\n\r\r\n"
  const HALF: Bytes := "\n\r\n"

  /** A non-empty text without line ends. */
  predicate NoBreaks(x: Bytes) {
    x != [] && '\r' !in x && '\n' !in x
  }

  lemma NormalOfText(x: Bytes, brk: Bytes, brk': Bytes, rest: Bytes)
    requires NoBreaks(x) && Normal(brk + rest) == brk' + Normal(rest)
    ensures Normal(x + brk + rest) == x + brk' + Normal(rest)
    ensures rest == [] ==> Normal(x + brk) == x + brk'
  {
    NormalOfNoCrLf(x);
    NormalSplits(x, brk + rest);
    assert x + brk + rest == x + (brk + rest) && x + brk' + Normal(rest) == x + (brk' + Normal(rest));
    if rest == [] {
      assert x + brk + rest == x + brk && x + brk' + [] == x + brk';
    }
  }

  lemma NormalOfCrLf(rest: Bytes)
    ensures Normal("\r\n" + rest) == "\n" + Normal(rest)
  {
    assert ("\r\n" + rest)[2..] == rest;
  }

  lemma NormalOfBlank(rest: Bytes)
    ensures Normal(BLANK + rest) == BLANK + Normal(rest)
  {
    NormalCons('\n', rest);
    NormalCons('\n', ['\n'] + rest);
    assert BLANK + rest == ['\n'] + (['\n'] + rest);
  }

  lemma NormalOfBreaks(rest: Bytes)
    ensures Normal(INNER + rest) == HALF + Normal(rest)
    ensures Normal(HALF + rest) == BLANK + Normal(rest)
    ensures Normal(BLANK + rest) == BLANK + Normal(rest)
  {
    NormalOfCrLf(rest);
    NormalOfBlank(rest);
    var crlf := "\r\n" + rest;
    NormalCons('\r', crlf);
    NormalCons('\n', ['\r'] + crlf);
    NormalCons('\n', crlf);
    assert INNER + rest == ['\n'] + (['\r'] + crlf) && HALF + rest == ['\n'] + crlf;
  }

  lemma NormalOfEnd(y: Bytes)
    requires NoBreaks(y)
    ensures Normal(y + BLANK) == y + BLANK
  {
    NormalOfBreaks([]);
    NormalOfText(y, BLANK, BLANK, []);
  }

  lemma BlankCons(c: char, s: Bytes)
    requires !(c == '\n' && s != [] && s[0] == '\n')
    ensures FirstBlank([c] + s) == 1 + FirstBlank(s)
  {
    assert ([c] + s)[1..] == s;
  }

  lemma HalfHasNone(rest: Bytes)
    requires '\n' !in rest && FirstBlank(rest) == |rest|
    ensures FirstBlank(HALF + rest) == |HALF + rest|
  {
    BlankCons('\n', rest);
    BlankCons('\r', ['\n'] + rest);
    BlankCons('\n', ['\r'] + (['\n'] + rest));
    assert HALF + rest == ['\n'] + (['\r'] + (['\n'] + rest));
  }

  lemma {:induction false} BlankAfter(x: Bytes, rest: Bytes)
    requires '\n' !in x
    ensures FirstBlank(x + rest) == |x| + FirstBlank(rest)
  {
    if x == [] {
      assert x + rest == rest;
    } else {
      BlankAfter(x[1..], rest);
      BlankCons(x[0], x[1..] + rest);
      assert x + rest == [x[0]] + (x[1..] + rest);
    }
  }

  lemma OneEvent(event: Bytes, rest: Bytes)
    requires FirstBlank(event) == |event| && (event == [] || event[|event| - 1] != '\n')
    ensures Drain(event + BLANK + rest) == Prepend([event], Drain(rest))
  {
    var s := event + BLANK + rest;
    var n := |event|;
    forall j | 0 <= j < n ensures !BlankAt(s, j) {
      assert !BlankAt(event, j) && s[j] == event[j] && (j + 1 < n ==> s[j + 1] == event[j + 1]);
    }
    FirstBlankIs(s, n);
    assert s[..n] == event && s[n + 2..] == rest;
  }

  lemma WholeEvent(x: Bytes, brk: Bytes, y: Bytes)
    requires NoBreaks(x) && NoBreaks(y) && brk == HALF
    ensures Drain(x + brk + (y + BLANK)).events == [x + brk + y]
  {
    var event := x + brk + y;
    assert event == x + (brk + y);
    BlankAfter(y, []);
    assert y + [] == y;
    HalfHasNone(y);
    BlankAfter(x, brk + y);
    OneEvent(event, []);
    assert event + BLANK + [] == x + brk + (y + BLANK);
  }

  lemma FeedOne(text: Bytes)
    requires text != []
    ensures FeedAll([], [text]) == InOnePiece(text)
  {
    assert [text][1..] == [] && [] + text == text;
    var r := InOnePiece(text);
    assert r.events + [] == r.events;
  }

  lemma InOne(x: Bytes, y: Bytes)
    requires NoBreaks(x) && NoBreaks(y)
    ensures FeedAll([], [x + INNER + (y + BLANK)]).events == [x + HALF + y]
  {
    NormalOfBreaks(y + BLANK);
    NormalOfText(x, INNER, HALF, y + BLANK);
    NormalOfEnd(y);
    FeedOne(x + INNER + (y + BLANK));
    WholeEvent(x, HALF, y);
  }

  lemma NothingPending(s: Bytes)
    requires FirstBlank(s) == |s|
    ensures Drain(s) == Read([], s)
  {
  }

  lemma HalfIsPending(x: Bytes)
    requires NoBreaks(x)
    ensures Drain(Normal(x + INNER)) == Read([], x + HALF)
  {
    NormalOfBreaks([]);
    NormalOfText(x, INNER, HALF, []);
    assert INNER + [] == INNER && HALF + [] == HALF;
    HalfHasNone([]);
    assert HALF + [] == HALF;
    BlankAfter(x, HALF);
    NothingPending(x + HALF);
  }

  lemma TwoEvents(x: Bytes, y: Bytes)
    requires NoBreaks(x) && NoBreaks(y)
    ensures Drain(x + BLANK + (y + BLANK)).events == [x, y]
  {
    BlankAfter(x, []);
    BlankAfter(y, []);
    assert x + [] == x && y + [] == y && y + BLANK + [] == y + BLANK;
    OneEvent(y, []);
    OneEvent(x, y + BLANK);
  }

  lemma InTwo(x: Bytes, y: Bytes)
    requires NoBreaks(x) && NoBreaks(y)
    ensures FeedAll([], [x + INNER, y + BLANK]).events == [x, y]
  {
    HalfIsPending(x);
    NormalOfBreaks(y + BLANK);
    NormalOfText(x, HALF, BLANK, y + BLANK);
    NormalOfEnd(y);
    FeedTwo(x + INNER, y + BLANK);
    TwoEvents(x, y);
  }

  /** For such texts the events themselves can differ: in one piece this one is a single event, cut after the CR CR LF
      it is two. */
  lemma ChunkingChangesEvents(x: Bytes, y: Bytes)
    requires NoBreaks(x) && NoBreaks(y)
    ensures FeedAll([], [x + INNER + (y + BLANK)]).events == [x + HALF + y]
    ensures FeedAll([], [x + INNER, y + BLANK]).events == [x, y]
  {
    InOne(x, y);
    InTwo(x, y);
  }
}
