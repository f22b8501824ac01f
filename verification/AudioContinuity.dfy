/** compute_continuity_stats, over exact reals, and what its worst underrun means to a player. */
module AudioContinuity {
  datatype Stats = Stats(maxUnderrun: real, eventCount: nat, isContinuous: bool)

  /** Bytes in the chunks before chunk i. */
  function ReceivedBefore(sizes: seq<int>, i: nat): int
    requires i <= |sizes|
  {
    if i == 0 then 0 else ReceivedBefore(sizes, i - 1) + sizes[i - 1]
  }

  /** The bytes a player consumes. */
  function Played(seconds: real, rate: int): real {
    seconds * rate as real
  }

  /** How long some bytes last. */
  function Lasting(bytes: real, rate: int): real
    requires 0 < rate
  {
    bytes / rate as real
  }

  lemma PlayedLasting(bytes: real, rate: int)
    requires 0 < rate
    ensures Played(Lasting(bytes, rate), rate) == bytes
  {
  }

  lemma PlayedOrder(a: real, b: real, rate: int)
    requires 0 < rate
    ensures Played(a, rate) <= Played(b, rate) <==> a <= b
  {
  }

  /** How long, in seconds, a player that started with chunk 0 has been out of data when chunk i arrives. */
  function Deficit(times: seq<real>, sizes: seq<int>, rate: int, i: nat): real
    requires 0 < rate && i < |times| == |sizes|
  {
    times[i] - times[0] - ReceivedBefore(sizes, i) as real / rate as real
  }

  /** The chunks after the first at which the player is out of data. */
  ghost function Starved(times: seq<real>, sizes: seq<int>, rate: int, n: nat): (r: set<nat>)
    requires 0 < rate && n <= |times| == |sizes|
  {
    set i: nat | 0 < i < n && Deficit(times, sizes, rate, i) > 0.0
  }

  /** worst is the largest deficit, or 0 when there is none. */
  ghost predicate IsWorst(times: seq<real>, sizes: seq<int>, rate: int, n: nat, worst: real)
    requires 0 < rate && n <= |times| == |sizes|
  {
    && 0.0 <= worst
    && (forall i | 0 < i < n :: Deficit(times, sizes, rate, i) <= worst)
    && (worst == 0.0 || exists i :: 0 < i < n && Deficit(times, sizes, rate, i) == worst)
  }

  lemma DeficitInSeconds(elapsed: real, received: real, rate: int)
    requires 0 < rate
    ensures Lasting(Played(elapsed, rate) - received, rate) == elapsed - Lasting(received, rate)
    ensures Played(elapsed, rate) - received > 0.0 <==> elapsed - Lasting(received, rate) > 0.0
  {
    var q := Lasting(received, rate);
    PlayedLasting(received, rate);
    PlayedOrder(elapsed, q, rate);
    assert Played(elapsed, rate) - received == Played(elapsed - q, rate);
  }

  lemma StarvedGrows(times: seq<real>, sizes: seq<int>, rate: int, i: nat)
    requires 0 < rate && i < |times| == |sizes|
    ensures i == 0 ==> Starved(times, sizes, rate, i + 1) == {} && Starved(times, sizes, rate, i) == {}
    ensures i > 0 ==> Starved(times, sizes, rate, i + 1) ==
                      Starved(times, sizes, rate, i) + if Deficit(times, sizes, rate, i) > 0.0 then {i} else {}
    ensures i !in Starved(times, sizes, rate, i)
  {
  }

  lemma MeasureOneMore(times: seq<real>, sizes: seq<int>, rate: int, i: nat, worst: real)
    requires 0 < rate && i < |times| == |sizes| && IsWorst(times, sizes, rate, i, worst)
    ensures i == 0 ==>
              && IsWorst(times, sizes, rate, i + 1, worst)
              && Starved(times, sizes, rate, i + 1) == Starved(times, sizes, rate, i)
    ensures i > 0 ==> var d := Deficit(times, sizes, rate, i);
                      && IsWorst(times, sizes, rate, i + 1, if d > worst then d else worst)
                      && |Starved(times, sizes, rate, i + 1)| ==
                            |Starved(times, sizes, rate, i)| + if d > 0.0 then 1 else 0
  {
    StarvedGrows(times, sizes, rate, i);
  }

  /** The loop over the chunks. */
  method Measure(times: seq<real>, sizes: seq<int>, rate: int) returns (worst: real, events: nat)
    requires 0 < rate && times != [] && |times| == |sizes|
    ensures IsWorst(times, sizes, rate, |times|, worst) && events == |Starved(times, sizes, rate, |times|)|
  {
    var start := times[0];
    var receivedBefore := 0;
    worst, events := 0.0, 0;
    for i := 0 to |times|
      invariant receivedBefore == ReceivedBefore(sizes, i)
      invariant IsWorst(times, sizes, rate, i, worst) && events == |Starved(times, sizes, rate, i)|
    {
      MeasureOneMore(times, sizes, rate, i, worst);
      if i > 0 {
        var deficitBytes := Played(times[i] - start, rate) - receivedBefore as real;
        DeficitInSeconds(times[i] - start, receivedBefore as real, rate);
        if deficitBytes > 0.0 {
          var deficit := Lasting(deficitBytes, rate);
          if deficit > worst {
            worst := deficit;
          }
          events := events + 1;
        }
      }
      receivedBefore := receivedBefore + sizes[i];
    }
  }

  /** compute_continuity_stats */
  method ComputeContinuityStats(times: seq<real>, sizes: seq<int>, sampleRate: int, sampleWidth: int, channels: int,
                                threshold: real) returns (stats: Stats)
    ensures times == [] || |times| != |sizes| || sampleRate * sampleWidth * channels <= 0 ==>
              stats == Stats(0.0, 0, true)
    ensures times != [] && |times| == |sizes| && sampleRate * sampleWidth * channels > 0 ==>
              var rate := sampleRate * sampleWidth * channels;
              && IsWorst(times, sizes, rate, |times|, stats.maxUnderrun)
              && (exists starved: set<nat> ::
                    && stats.eventCount == |starved|
                    && forall i: nat :: i in starved <==>
                         0 < i < |times| && ReceivedBefore(sizes, i) as real / rate as real < times[i] - times[0])
              && (stats.isContinuous <==> stats.maxUnderrun <= threshold)
  {
    var n := |times|;
    if n == 0 || n != |sizes| {
      return Stats(0.0, 0, true);
    }
    var rate := sampleRate * sampleWidth * channels;
    if rate <= 0 {
      return Stats(0.0, 0, true);
    }
    var worst, events := Measure(times, sizes, rate);
    ghost var starved := Starved(times, sizes, rate, n);
    assert forall i: nat ::
        i in starved <==> 0 < i < n && ReceivedBefore(sizes, i) as real / rate as real < times[i] - times[0];
    return Stats(worst, events, worst <= threshold);
  }

  // ---- what it means ----

  /** A player that starts delay seconds after the first chunk has, at every chunk's arrival, played no more than what
      had arrived before it. */
  ghost predicate DelaySuffices(times: seq<real>, sizes: seq<int>, rate: int, delay: real)
    requires 0 < rate && |times| == |sizes|
  {
    forall i | 0 < i < |times| :: (times[i] - times[0] - delay) * rate as real <= ReceivedBefore(sizes, i) as real
  }

  lemma SufficesAt(elapsed: real, delay: real, received: real, rate: int)
    requires 0 < rate
    ensures Played(elapsed - delay, rate) <= received <==> elapsed - Lasting(received, rate) <= delay
  {
    PlayedLasting(received, rate);
    PlayedOrder(elapsed - delay, Lasting(received, rate), rate);
  }

  lemma SufficesIff(times: seq<real>, sizes: seq<int>, rate: int, delay: real)
    requires 0 < rate && |times| == |sizes|
    ensures DelaySuffices(times, sizes, rate, delay) <==>
            forall i | 0 < i < |times| :: Deficit(times, sizes, rate, i) <= delay
  {
    forall i | 0 < i < |times|
      ensures (times[i] - times[0] - delay) * rate as real <= ReceivedBefore(sizes, i) as real <==>
              Deficit(times, sizes, rate, i) <= delay
    {
      SufficesAt(times[i] - times[0], delay, ReceivedBefore(sizes, i) as real, rate);
    }
  }

  /** The worst underrun is the least start delay that suffices. */
  lemma WorstIsLeastDelay(times: seq<real>, sizes: seq<int>, rate: int, worst: real, delay: real)
    requires 0 < rate && |times| == |sizes| && IsWorst(times, sizes, rate, |times|, worst) && 0.0 <= delay
    ensures DelaySuffices(times, sizes, rate, delay) <==> worst <= delay
  {
    SufficesIff(times, sizes, rate, delay);
  }

  /** It is zero exactly when no underrun was counted. */
  lemma WorstIsZeroIff(times: seq<real>, sizes: seq<int>, rate: int, worst: real)
    requires 0 < rate && |times| == |sizes| && IsWorst(times, sizes, rate, |times|, worst)
    ensures worst == 0.0 <==> |Starved(times, sizes, rate, |times|)| == 0
  {
    var starved := Starved(times, sizes, rate, |times|);
    if worst != 0.0 {
      var i :| 0 < i < |times| && Deficit(times, sizes, rate, i) == worst;
      assert i in starved;
    } else {
      assert forall i | 0 < i < |times| :: Deficit(times, sizes, rate, i) <= 0.0;
      assert starved == {};
    }
  }

  /** Arrival times never decrease, and no chunk has a negative size. */
  ghost predicate Timeline(times: seq<real>, sizes: seq<int>) {
    && |times| == |sizes|
    && (forall i, j | 0 <= i < j < |times| :: times[i] <= times[j])
    && forall i | 0 <= i < |sizes| :: 0 <= sizes[i]
  }

  /** The bytes that have arrived by time t. */
  function ArrivedBy(times: seq<real>, sizes: seq<int>, t: real): int
    requires |times| == |sizes|
  {
    if times == [] then 0 else (if times[0] <= t then sizes[0] else 0) + ArrivedBy(times[1..], sizes[1..], t)
  }

  /** What a player that starts delay seconds after the first chunk wants to have played by time t. */
  function Wanted(start: real, rate: int, delay: real, t: real): real {
    if t <= start + delay then 0.0 else (t - start - delay) * rate as real
  }

  /** At no instant up to the last arrival has the player wanted more than has arrived. */
  ghost predicate NeverStarves(times: seq<real>, sizes: seq<int>, rate: int, delay: real)
    requires times != [] && |times| == |sizes|
  {
    forall t: real | times[0] <= t <= times[|times| - 1] ::
          Wanted(times[0], rate, delay, t) <= ArrivedBy(times, sizes, t) as real
  }

  lemma {:induction false} ReceivedFromTail(sizes: seq<int>, i: nat)
    requires 0 < i <= |sizes|
    ensures ReceivedBefore(sizes, i) == sizes[0] + ReceivedBefore(sizes[1..], i - 1)
  {
    if i > 1 {
      ReceivedFromTail(sizes, i - 1);
    }
  }

  lemma {:induction false} ArrivedBetween(times: seq<real>, sizes: seq<int>, t: real, i: nat)
    requires Timeline(times, sizes) && i <= |times|
    requires (forall j | 0 <= j < i :: times[j] <= t) && forall j | i <= j < |times| :: t < times[j]
    ensures ArrivedBy(times, sizes, t) == ReceivedBefore(sizes, i)
    decreases |times|
  {
    if times != [] {
      var rest := times[1..];
      assert Timeline(rest, sizes[1..]) by {
        assert forall j | 0 <= j < |rest| :: rest[j] == times[j + 1] && sizes[1..][j] == sizes[j + 1];
      }
      if i == 0 {
        assert forall j | 0 <= j < |rest| :: rest[j] == times[j + 1];
        ArrivedBetween(rest, sizes[1..], t, 0);
      } else {
        forall j | 0 <= j < i - 1 ensures rest[j] <= t { assert rest[j] == times[j + 1]; }
        forall j | i - 1 <= j < |rest| ensures t < rest[j] { assert rest[j] == times[j + 1]; }
        ArrivedBetween(rest, sizes[1..], t, i - 1);
        ReceivedFromTail(sizes, i);
      }
    }
  }

  /** The first chunk to arrive after t. */
  lemma {:induction false} NextChunk(times: seq<real>, t: real, n: nat) returns (i: nat)
    requires n < |times| && t < times[n] && forall j, k | 0 <= j < k < |times| :: times[j] <= times[k]
    ensures i <= n && t < times[i] && forall j | 0 <= j < i :: times[j] <= t
    decreases n
  {
    if n == 0 || times[n - 1] <= t {
      i := n;
    } else {
      i := NextChunk(times, t, n - 1);
    }
  }

  lemma {:induction false} ReceivedNotNegative(sizes: seq<int>, i: nat)
    requires i <= |sizes| && forall j | 0 <= j < |sizes| :: 0 <= sizes[j]
    ensures 0 <= ReceivedBefore(sizes, i)
  {
    if i > 0 {
      ReceivedNotNegative(sizes, i - 1);
    }
  }

  /** Up to an arrival at which a player does not want more than it has received, it never does. */
  lemma WantsNoMore(start: real, delay: real, arrival: real, t: real, received: real, rate: int)
    requires 0 < rate && 0.0 <= received && t <= arrival && Played(arrival - start - delay, rate) <= received
    ensures Wanted(start, rate, delay, t) <= received
  {
    PlayedOrder(t - start - delay, arrival - start - delay, rate);
  }

  lemma {:induction false} ReceivedGrows(sizes: seq<int>, i: nat, n: nat)
    requires i <= n <= |sizes| && forall j | 0 <= j < |sizes| :: 0 <= sizes[j]
    ensures ReceivedBefore(sizes, i) <= ReceivedBefore(sizes, n)
  {
    if i < n {
      ReceivedGrows(sizes, i, n - 1);
    }
  }

  /** An instant at which the next chunk to come is chunk i, or is the arrival of chunk i itself. */
  lemma EnoughBefore(times: seq<real>, sizes: seq<int>, rate: int, delay: real, t: real, i: nat, n: nat)
    requires 0 < rate && Timeline(times, sizes) && 0 < i <= n <= |times| && i < |times| && t <= times[i]
    requires (forall j | 0 <= j < n :: times[j] <= t) && forall j | n <= j < |times| :: t < times[j]
    requires Played(times[i] - times[0] - delay, rate) <= ReceivedBefore(sizes, i) as real
    ensures Wanted(times[0], rate, delay, t) <= ArrivedBy(times, sizes, t) as real
  {
    ArrivedBetween(times, sizes, t, n);
    ReceivedNotNegative(sizes, i);
    ReceivedGrows(sizes, i, n);
    WantsNoMore(times[0], delay, times[i], t, ReceivedBefore(sizes, i) as real, rate);
  }

  lemma SufficesAtArrival(times: seq<real>, sizes: seq<int>, rate: int, delay: real, i: nat)
    requires 0 < rate && |times| == |sizes| && DelaySuffices(times, sizes, rate, delay) && 0 < i < |times|
    ensures Played(times[i] - times[0] - delay, rate) <= ReceivedBefore(sizes, i) as real
  {
  }

  /** Before the second arrival nothing is wanted that has not come, when the player waits. */
  lemma NothingWanted(times: seq<real>, sizes: seq<int>, rate: int, delay: real, t: real)
    requires 0 < rate && Timeline(times, sizes) && |times| == 1 && 0.0 <= delay && t == times[0]
    ensures Wanted(times[0], rate, delay, t) <= ArrivedBy(times, sizes, t) as real
  {
    assert times[1..] == [];
  }

  /** The check at arrivals is enough: with a sufficient delay the player starves at no instant in between either. */
  lemma SufficientDelayNeverStarves(times: seq<real>, sizes: seq<int>, rate: int, delay: real)
    requires 0 < rate && times != [] && Timeline(times, sizes) && 0.0 <= delay
             && DelaySuffices(times, sizes, rate, delay)
    ensures NeverStarves(times, sizes, rate, delay)
  {
    var last := times[|times| - 1];
    forall t: real | times[0] <= t <= last
      ensures Wanted(times[0], rate, delay, t) <= ArrivedBy(times, sizes, t) as real
    {
      if t < last {
        var i := NextChunk(times, t, |times| - 1);
        assert forall j | i <= j < |times| :: t < times[j];
        SufficesAtArrival(times, sizes, rate, delay, i);
        EnoughBefore(times, sizes, rate, delay, t, i, i);
      } else if |times| > 1 {
        SufficesAtArrival(times, sizes, rate, delay, |times| - 1);
        EnoughBefore(times, sizes, rate, delay, t, |times| - 1, |times|);
      } else {
        NothingWanted(times, sizes, rate, delay, t);
      }
    }
  }

  /** An instant from earlier on, before arrival, by which more than some seconds have been played. */
  lemma InstantBetween(earlier: real, arrival: real, playStart: real, seconds: real) returns (t: real)
    requires 0.0 <= seconds < arrival - playStart && earlier < arrival
    ensures earlier <= t < arrival && playStart + seconds < t
  {
    var low := if playStart + seconds < earlier then earlier else playStart + seconds;
    t := (low + arrival) / 2.0;
  }

  /** A player that wants more than it has received by an arrival has run out before it. */
  lemma RunsOutBefore(start: real, delay: real, arrival: real, received: real, rate: int)
    requires 0 < rate && 0.0 <= received && Played(arrival - start - delay, rate) > received
    ensures 0.0 <= Lasting(received, rate) < arrival - (start + delay)
  {
    SufficesAt(arrival - start, delay, received, rate);
    PlayedLasting(received, rate);
    PlayedOrder(0.0, Lasting(received, rate), rate);
  }

  /** Past the point where it runs out, it wants more than it has received. */
  lemma WantsMore(start: real, delay: real, t: real, received: real, rate: int)
    requires 0 < rate && 0.0 <= Lasting(received, rate) && start + delay + Lasting(received, rate) < t
    ensures Wanted(start, rate, delay, t) > received
  {
    PlayedLasting(received, rate);
    PlayedOrder(t - start - delay, Lasting(received, rate), rate);
  }

  /** Just before the first chunk that arrives together with chunk i, the player already wants more than has arrived. */
  lemma TooSmallAt(times: seq<real>, sizes: seq<int>, rate: int, delay: real, i: nat)
    requires 0 < rate && times != [] && Timeline(times, sizes) && 0.0 <= delay && 0 < i < |times|
    requires Played(times[i] - times[0] - delay, rate) > ReceivedBefore(sizes, i) as real
    ensures !NeverStarves(times, sizes, rate, delay)
    decreases i
  {
    ReceivedNotNegative(sizes, i);
    if times[i - 1] == times[i] && 1 < i {
      assert ReceivedBefore(sizes, i - 1) <= ReceivedBefore(sizes, i);
      TooSmallAt(times, sizes, rate, delay, i - 1);
    } else {
      var received := ReceivedBefore(sizes, i) as real;
      RunsOutBefore(times[0], delay, times[i], received, rate);
      var t := InstantBetween(times[i - 1], times[i], times[0] + delay, Lasting(received, rate));
      WantsMore(times[0], delay, t, received, rate);
      assert (forall j | 0 <= j < i :: times[j] <= t) && forall j | i <= j < |times| :: t < times[j];
      ArrivedBetween(times, sizes, t, i);
      assert times[0] <= t < times[|times| - 1]
          && Wanted(times[0], rate, delay, t) > ArrivedBy(times, sizes, t) as real;
    }
  }

  /** A smaller delay starves the player, at some instant before a chunk that comes strictly later than the one
      before. */
  lemma TooSmallDelayStarves(times: seq<real>, sizes: seq<int>, rate: int, delay: real)
    requires 0 < rate && times != [] && Timeline(times, sizes) && 0.0 <= delay
             && !DelaySuffices(times, sizes, rate, delay)
    ensures !NeverStarves(times, sizes, rate, delay)
  {
    var i :| 0 < i < |times| && (times[i] - times[0] - delay) * rate as real > ReceivedBefore(sizes, i) as real;
    TooSmallAt(times, sizes, rate, delay, i);
  }

  /** The worst underrun, in full: among the delays, exactly those of at least that long never starve the player. */
  lemma WorstUnderrunIsOptimal(times: seq<real>, sizes: seq<int>, rate: int, worst: real, delay: real)
    requires 0 < rate && times != [] && Timeline(times, sizes) && IsWorst(times, sizes, rate, |times|, worst)
             && 0.0 <= delay
    ensures NeverStarves(times, sizes, rate, delay) <==> worst <= delay
  {
    WorstIsLeastDelay(times, sizes, rate, worst, delay);
    if worst <= delay {
      SufficientDelayNeverStarves(times, sizes, rate, delay);
    } else {
      TooSmallDelayStarves(times, sizes, rate, delay);
    }
  }
}
