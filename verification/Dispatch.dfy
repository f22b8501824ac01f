/** Choosing the dispatch length: CPU upper bounds on the sequence lengths, and what is made of them. */
module Dispatch {
  const SMALL_PATH_MAX_SEQ_LEN: nat := 1024
  const LONG_SPLIT_TOKENS: nat := 1024

  function SmallDecodeBucket(maxSeqLen: int): int {
    if maxSeqLen <= 64 then 64
    else if maxSeqLen <= 128 then 128
    else if maxSeqLen <= 256 then 256
    else if maxSeqLen <= 512 then 512
    else SMALL_PATH_MAX_SEQ_LEN
  }

  /** Largest element, and least when there is none. */
  function MaxFrom(least: int, s: seq<int>): (m: int)
    ensures least <= m && (forall i | 0 <= i < |s| :: s[i] <= m) && (m == least || m in s)
  {
    if s == [] then least
    else
      var rest := MaxFrom(least, s[1..]);
      if rest <= s[0] then s[0] else rest
  }

  datatype Reason = NoUpperBound | NotOnCpu | TooFewRows | EmptyBatch | Underestimates

  /** Use a length, fall back to the original attention, or raise. */
  datatype Choice = Use(len: int) | Fallback | Raise(reason: Reason)

  /** What the metadata carries: nothing, something that is not a CPU tensor, or a CPU tensor of bounds. */
  datatype UpperBound = Missing | Foreign | OnCpu(bounds: seq<int>)

  function Refuse(required: bool, reason: Reason): Choice {
    if required then Raise(reason) else Fallback
  }

  /** The dispatch length of a call with activeBatch rows. */
  function DispatchMaxSeqLen(metaMaxSeqLen: int, maxQueryLen: int, upper: UpperBound, activeBatch: nat, lens: seq<int>,
                             required: bool): Choice {
    if maxQueryLen != 1 then Use(metaMaxSeqLen)
    else match upper
      case Missing => Refuse(required, NoUpperBound)
      case Foreign => Refuse(required, NotOnCpu)
      case OnCpu(bounds) =>
        if |bounds| < activeBatch then Refuse(required, TooFewRows)
        else if activeBatch == 0 then Raise(EmptyBatch)
        else
          var realUpperBound := MaxFrom(1, bounds[..activeBatch]);
          if required && lens != [] && realUpperBound < MaxFrom(lens[0], lens[1..]) then Raise(Underestimates)
          else if realUpperBound <= SMALL_PATH_MAX_SEQ_LEN then Use(SmallDecodeBucket(realUpperBound))
          else Use(realUpperBound)
  }

  /** The bounds are real: each active row's length is at most its bound. */
  ghost predicate BoundsHold(upper: UpperBound, activeBatch: nat, lens: seq<int>) {
    upper.OnCpu? && activeBatch <= |upper.bounds| && |lens| == activeBatch
        && forall i | 0 <= i < activeBatch :: lens[i] <= upper.bounds[i]
  }

  /** When a decode call gets a dispatch length, when it falls back and when it raises. Without usable bounds the
      default mode falls back and the required mode raises, each with its own reason; the required mode also raises when
      some row is longer than every bound. */
  lemma DispatchOutcome(metaMaxSeqLen: int, upper: UpperBound, activeBatch: nat, lens: seq<int>, required: bool)
    ensures var c := DispatchMaxSeqLen(metaMaxSeqLen, 1, upper, activeBatch, lens, required);
            && (!required && (upper.OnCpu? ==> |upper.bounds| < activeBatch) <==> c == Fallback)
            && (required && upper.Missing? <==> c == Raise(NoUpperBound))
            && (required && upper.Foreign? <==> c == Raise(NotOnCpu))
            && (required && upper.OnCpu? && |upper.bounds| < activeBatch <==> c == Raise(TooFewRows))
            && (upper.OnCpu? && activeBatch == 0 <==> c == Raise(EmptyBatch))
            && (c == Raise(Underestimates) <==>
                && required && upper.OnCpu? && 0 < activeBatch <= |upper.bounds|
                && exists j :: 0 <= j < |lens| && 1 < lens[j]
                               && forall i | 0 <= i < activeBatch :: upper.bounds[i] < lens[j])
    ensures DispatchMaxSeqLen(metaMaxSeqLen, 2, upper, activeBatch, lens, required) == Use(metaMaxSeqLen)
  {
    if upper.OnCpu? && 0 < activeBatch <= |upper.bounds| && lens != [] {
      var active := upper.bounds[..activeBatch];
      var top, longest := MaxFrom(1, active), MaxFrom(lens[0], lens[1..]);
      forall i | 0 <= i < activeBatch ensures upper.bounds[i] <= top {
        assert active[i] == upper.bounds[i];
      }
      forall j | 0 <= j < |lens| ensures lens[j] <= longest {
        assert j == 0 || lens[j] == lens[1..][j - 1];
      }
      if top < longest {
        assert longest in lens;
      } else if top != 1 {
        var i :| 0 <= i < activeBatch && active[i] == top;
        assert upper.bounds[i] == top;
      }
    }
  }

  /** The length it gets: up to 1024 the least of 64, 128, 256, 512 and 1024 that no active bound exceeds, and beyond
      that the greatest active bound itself. */
  lemma DispatchLength(metaMaxSeqLen: int, bounds: seq<int>, activeBatch: nat, lens: seq<int>, required: bool)
    requires 0 < activeBatch <= |bounds|
    ensures var c := DispatchMaxSeqLen(metaMaxSeqLen, 1, OnCpu(bounds), activeBatch, lens, required);
            c.Use? ==>
              && (forall i | 0 <= i < activeBatch :: bounds[i] <= c.len)
              && (c.len <= 1024 ==> c.len in {64, 128, 256, 512, 1024})
              && (c.len == 64 || exists i :: 0 <= i < activeBatch
                                             && (if c.len <= 1024 then c.len < 2 * bounds[i] else c.len == bounds[i]))
  {
    var active := bounds[..activeBatch];
    var top := MaxFrom(1, active);
    forall i | 0 <= i < activeBatch ensures bounds[i] <= top {
      assert active[i] == bounds[i];
    }
    if top > 1 {
      var i :| 0 <= i < activeBatch && active[i] == top;
      assert bounds[i] == top;
    }
  }

  /** Decode dispatch never drops tokens: the length covers every active row if the bounds are real, and in required
      mode whatever the bounds are. */
  lemma DispatchCoversEveryRow(metaMaxSeqLen: int, upper: UpperBound, activeBatch: nat, lens: seq<int>, required: bool)
    requires |lens| == activeBatch
    requires DispatchMaxSeqLen(metaMaxSeqLen, 1, upper, activeBatch, lens, required).Use? ==>
               required || BoundsHold(upper, activeBatch, lens)
    ensures var c := DispatchMaxSeqLen(metaMaxSeqLen, 1, upper, activeBatch, lens, required);
            c.Use? ==> 1 <= c.len && forall i | 0 <= i < activeBatch :: lens[i] <= c.len
  {
    var c := DispatchMaxSeqLen(metaMaxSeqLen, 1, upper, activeBatch, lens, required);
    if c.Use? {
      var top := MaxFrom(1, upper.bounds[..activeBatch]);
      forall i | 0 <= i < activeBatch ensures lens[i] <= top {
        if required {
          assert i == 0 || lens[i] == lens[1..][i - 1];
        } else {
          assert upper.bounds[..activeBatch][i] == upper.bounds[i];
        }
      }
    }
  }

  /** Bucketing never changes the path: the length asks for the long kernels exactly when some active bound does. */
  lemma DispatchKeepsPath(metaMaxSeqLen: int, bounds: seq<int>, activeBatch: nat, lens: seq<int>, required: bool)
    requires 0 < activeBatch <= |bounds|
    ensures var c := DispatchMaxSeqLen(metaMaxSeqLen, 1, OnCpu(bounds), activeBatch, lens, required);
            c.Use? ==>
              (SMALL_PATH_MAX_SEQ_LEN < c.len
               <==> exists i :: 0 <= i < activeBatch && SMALL_PATH_MAX_SEQ_LEN < bounds[i])
  {
    var active := bounds[..activeBatch];
    var top := MaxFrom(1, active);
    if top in active {
      var i :| 0 <= i < activeBatch && active[i] == top;
      assert bounds[i] == top;
    }
    forall i | 0 <= i < activeBatch ensures bounds[i] <= top {
      assert active[i] == bounds[i];
    }
  }

  // ---- attaching the bounds ----

  /** The bound used while a CUDA graph is captured. */
  function CaptureUpperBound(maxModelLen: nat): nat {
    if maxModelLen < SMALL_PATH_MAX_SEQ_LEN then SMALL_PATH_MAX_SEQ_LEN else maxModelLen
  }

  /** Fills the CPU buffer and returns the attached view of it; Missing when nothing is attached. computed and
      scheduled are per-row counts before and in this step; scheduled is absent when the caller passes none. */
  method AttachUpperBound(active: bool, maxModelLen: nat, buffer: array<int>, computed: seq<nat>, scheduled: seq<nat>,
                          haveScheduled: bool,
                          numReqs: nat, numReqsPadded: nat, maxQueryLen: int, padAttn: bool, forCapture: bool)
    returns (attached: UpperBound)
    requires numReqs <= numReqsPadded <= buffer.Length
    requires haveScheduled ==> numReqs == |scheduled| && numReqs <= |computed|
    modifies buffer
    ensures attached.Missing? <==> !active || maxQueryLen != 1 || (!forCapture && !haveScheduled)
    ensures attached.Missing? ==> buffer[..] == old(buffer[..])
    ensures !attached.Missing? ==>
              var rows := if padAttn then numReqsPadded else numReqs;
              && attached == OnCpu(buffer[..rows]) && buffer[rows..] == old(buffer[rows..])
              && forall i | 0 <= i < rows ::
                   buffer[i] == if forCapture then (if maxModelLen < 1024 then 1024 else maxModelLen)
                         else if i < numReqs then computed[i] + scheduled[i] else 1
  {
    attached := Missing;
    if !active || maxQueryLen != 1 {
      return;
    }
    var rows := if padAttn then numReqsPadded else numReqs;
    if forCapture {
      forall i | 0 <= i < rows { buffer[i] := CaptureUpperBound(maxModelLen); }
    } else {
      if !haveScheduled {
        return;
      }
      forall i | 0 <= i < numReqs { buffer[i] := computed[i] + scheduled[i]; }
      forall i | numReqs <= i < rows { buffer[i] := 1; }
    }
    attached := OnCpu(buffer[..rows]);
  }

  /** The bounds that a decode step attaches are real when a row's length is what was computed before the step plus
      what the step schedules, and at most 1 on padding rows. */
  lemma AttachedBoundsHold(buffer: seq<int>, computed: seq<nat>, scheduled: seq<nat>, numReqs: nat, rows: nat,
                           lens: seq<int>)
    requires |scheduled| == numReqs <= |computed| && |lens| <= rows <= |buffer|
    requires forall i | 0 <= i < rows :: buffer[i] == if i < numReqs then computed[i] + scheduled[i] else 1
    requires forall i | 0 <= i < |lens| :: lens[i] <= if i < numReqs then computed[i] + scheduled[i] else 1
    ensures BoundsHold(OnCpu(buffer[..rows]), |lens|, lens)
  {
  }
}
