/**
 * The radio spectrum pipeline's bookkeeping. A calculation thread folds
 * each FFT into one row of a small averaging buffer, swapping the two
 * halves of the spectrum so that zero frequency sits in the middle, then
 * turns the column averages into the end points of a line list. The render
 * side advances a time position through a ring of rows in the vertex
 * buffer, copies the newest row there, and draws the whole ring.
 *
 * Magnitudes (`log10` of the modulus of each FFT bin) arrive as reals; the
 * calculation thread, the semaphores between it and the renderer, and the
 * GPU copy itself are not modelled.
 */
module Radio {
  import opened Common

  /** `kMaxBufferSize`: complex samples per buffer; also `HIGH_RESOLUTION`. */
  const MAX_BUFFER_SIZE: nat := 512
  /** `kMaxTimeDepth`, and the pipeline's `m_timeDepth`. */
  const MAX_TIME_DEPTH: nat := 2048
  /** `sizeof(float)`. */
  const FLOAT_BYTES: nat := 4
  /** `kMaxSignalBufferBytes`. */
  const MAX_SIGNAL_BUFFER_BYTES: nat := FLOAT_BYTES * MAX_BUFFER_SIZE * 2
  /** The size of the device-local vertex buffer made in `SetupVertexBuffer`. */
  const VERTEX_BUFFER_BYTES: nat := (MAX_SIGNAL_BUFFER_BYTES + 64) * MAX_TIME_DEPTH
  /** Bytes of one time row in the high-resolution mode: two floats per FFT bin. */
  const ROW_BYTES: nat := MAX_BUFFER_SIZE * FLOAT_BYTES * 2

  /** A single-precision value as the vertex data holds it. */
  datatype Float = Num(v: real) | Inf(positive: bool) | NaN

  /** Floating-point division by a sample count: `x / 0` is infinite for `x != 0` and NaN for `0 / 0`. */
  function FloatDiv(a: real, d: nat): (r: Float)
    ensures r.NaN? <==> d == 0 && a == 0.0
    ensures r.Num? <==> d > 0
  {
    if d > 0 then Num(a / d as real) else if a == 0.0 then NaN else Inf(a > 0.0)
  }

  /**
   * The slot of the averaging row that FFT bin `i` lands in
   * (`AverageFunction`): the top pass moves bins below the half point up
   * by half the buffer, the bottom pass moves the others down by as much.
   */
  function ShiftedSlot(i: nat, bufferSize: nat): (slot: nat)
    requires bufferSize % 2 == 0 && i < bufferSize
    ensures slot < bufferSize
    ensures slot < bufferSize / 2 <==> i >= bufferSize / 2
  {
    var shift := bufferSize / 2;
    if i < shift then i + shift else i - shift
  }

  /** Shifting a slot twice returns it: the index map is its own inverse, hence a bijection. */
  lemma ShiftedSlotInvolution(i: nat, bufferSize: nat)
    requires bufferSize % 2 == 0 && i < bufferSize
    ensures ShiftedSlot(ShiftedSlot(i, bufferSize), bufferSize) == i
    ensures forall k :: 0 <= k < bufferSize && ShiftedSlot(k, bufferSize) == ShiftedSlot(i, bufferSize) ==> k == i
  {
  }

  /** The spectrum with its halves swapped: the row both passes together produce. */
  function FftShift(s: seq<real>): (r: seq<real>)
    ensures |r| == |s|
  {
    s[|s| / 2..] + s[..|s| / 2]
  }

  /** Slot `j` of the shifted spectrum holds bin `ShiftedSlot(j)`, and bin `i` is found at slot `ShiftedSlot(i)`. */
  lemma FftShiftAt(s: seq<real>, j: nat)
    requires |s| % 2 == 0 && j < |s|
    ensures FftShift(s)[j] == s[ShiftedSlot(j, |s|)]
    ensures FftShift(s)[ShiftedSlot(j, |s|)] == s[j]
  {
  }

  /** The shift is a permutation of the bins, and undoing it is doing it again. */
  lemma FftShiftPermutes(s: seq<real>)
    requires |s| % 2 == 0
    ensures multiset(FftShift(s)) == multiset(s)
    ensures FftShift(FftShift(s)) == s
  {
    var h := |s| / 2;
    assert s == s[..h] + s[h..];
    var t := FftShift(s);
    assert t[h..] == s[..h] && t[..h] == s[h..];
  }

  /** Whether slot `j` is written by the top pass (`top`) or by the bottom pass. */
  predicate WrittenBy(top: bool, j: nat, bufferSize: nat)
  {
    if top then j >= bufferSize / 2 else j < bufferSize / 2
  }

  /**
   * The state of `CalculateRadioSignal<buffer_size, avg_count, ...>`: the
   * averaging rows, the next row to fill, whether every row has been
   * filled since the last reset, and the shared signal data it writes.
   */
  class SignalCalc {
    const bufferSize: nat
    const avgCount: nat
    /** `radioSignalAvgBuffer[avg_count][buffer_size]`. */
    const avgBuffer: array2<real>
    /** `radioSignalData`: the host-visible staging floats. */
    const signalData: array<Float>
    /** `currentAvgPos`. */
    var currentAvgPos: nat
    /** `overflown`. */
    var overflown: bool
    /** FFTs folded in since the last reset. */
    ghost var samples: nat

    ghost predicate Valid()
      reads this
    {
      bufferSize > 0 && bufferSize % 2 == 0 && avgCount > 0 &&
      avgBuffer.Length0 == avgCount && avgBuffer.Length1 == bufferSize &&
      signalData.Length > 2 * bufferSize &&
      currentAvgPos < avgCount &&
      (samples < avgCount ==> !overflown && currentAvgPos == samples) &&
      (samples >= avgCount ==> overflown)
    }

    /** Until the rows wrap, the rows not yet filled this round still hold the reset's zeros. */
    ghost predicate RoundInvariant()
      reads this, avgBuffer
    {
      !overflown ==>
        forall r, j :: currentAvgPos <= r < avgBuffer.Length0 && 0 <= j < avgBuffer.Length1 ==> avgBuffer[r, j] == 0.0
    }

    /** The buffers of the thread's start-up, for the instantiation `<bufferSize, avgCount>`. */
    constructor (bufferSize: nat, avgCount: nat, data: array<Float>)
      requires bufferSize > 0 && bufferSize % 2 == 0 && avgCount > 0
      requires data.Length > 2 * bufferSize
      ensures Valid() && fresh(avgBuffer)
      ensures this.bufferSize == bufferSize && this.avgCount == avgCount && signalData == data
      ensures currentAvgPos == 0 && !overflown && samples == 0
    {
      this.bufferSize := bufferSize;
      this.avgCount := avgCount;
      avgBuffer := new real[avgCount, bufferSize];
      signalData := data;
      currentAvgPos := 0;
      overflown := false;
      samples := 0;
    }

    /**
     * Start of a round: the first `2 * buffer_size` signal floats and every
     * averaging cell become zero, and the row position starts over.
     */
    method ResetRound()
      requires Valid()
      modifies this, avgBuffer, signalData
      ensures Valid() && RoundInvariant()
      ensures currentAvgPos == 0 && !overflown && samples == 0
      ensures forall r, j :: 0 <= r < avgCount && 0 <= j < bufferSize ==> avgBuffer[r, j] == 0.0
      ensures forall k :: 0 <= k < 2 * bufferSize ==> signalData[k] == Num(0.0)
      ensures forall k :: 2 * bufferSize <= k < signalData.Length ==> signalData[k] == old(signalData[k])
    {
      var i := 0;
      while i < bufferSize * 2
        modifies signalData
        invariant 0 <= i <= bufferSize * 2
        invariant forall k :: 0 <= k < i ==> signalData[k] == Num(0.0)
        invariant forall k :: i <= k < signalData.Length ==> signalData[k] == old(signalData[k])
      {
        signalData[i] := Num(0.0);
        i := i + 1;
      }
      var r := 0;
      while r < avgCount
        modifies avgBuffer
        invariant 0 <= r <= avgCount
        invariant forall r', j :: 0 <= r' < r && 0 <= j < bufferSize ==> avgBuffer[r', j] == 0.0
      {
        var j := 0;
        while j < bufferSize
          modifies avgBuffer
          invariant 0 <= j <= bufferSize
          invariant forall r', j' :: 0 <= r' < r && 0 <= j' < bufferSize ==> avgBuffer[r', j'] == 0.0
          invariant forall j' :: 0 <= j' < j ==> avgBuffer[r, j'] == 0.0
        {
          avgBuffer[r, j] := 0.0;
          j := j + 1;
        }
        r := r + 1;
      }
      currentAvgPos := 0;
      overflown := false;
      samples := 0;
    }

    /**
     * `AverageFunction<..., top>`: one pass over half of the FFT bins,
     * writing each into the current row at its shifted slot. The other
     * half of the row and every other row are untouched.
     */
    method AverageFunction(top: bool, output: seq<real>)
      requires Valid() && |output| == bufferSize
      modifies avgBuffer
      ensures forall j :: 0 <= j < bufferSize && WrittenBy(top, j, bufferSize) ==>
        avgBuffer[currentAvgPos, j] == FftShift(output)[j]
      ensures forall r, j :: 0 <= r < avgCount && 0 <= j < bufferSize && !(r == currentAvgPos && WrittenBy(top, j, bufferSize)) ==>
        avgBuffer[r, j] == old(avgBuffer[r, j])
    {
      var shift := bufferSize / 2;
      var i := if top then 0 else shift;
      var end := if top then shift else bufferSize;
      while i < end
        invariant (if top then 0 else shift) <= i <= end
        invariant forall j :: 0 <= j < bufferSize && WrittenBy(top, j, bufferSize) && ShiftedSlot(j, bufferSize) < i ==>
          avgBuffer[currentAvgPos, j] == FftShift(output)[j]
        invariant forall r, j ::
          (0 <= r < avgCount && 0 <= j < bufferSize &&
           !(r == currentAvgPos && WrittenBy(top, j, bufferSize) && ShiftedSlot(j, bufferSize) < i)) ==>
          avgBuffer[r, j] == old(avgBuffer[r, j])
      {
        var sigPointIndex := if top then i + shift else i - shift;
        FftShiftAt(output, sigPointIndex);
        avgBuffer[currentAvgPos, sigPointIndex] := output[i];
        i := i + 1;
      }
    }

    /**
     * One sampling step of the inner loop: both passes fill the current
     * row with the shifted spectrum, then the row position advances and
     * wraps to 0, marking the buffer as overflown, after the last row.
     */
    method AddSample(output: seq<real>)
      requires Valid() && RoundInvariant() && |output| == bufferSize
      modifies this, avgBuffer
      ensures Valid() && RoundInvariant()
      ensures samples == old(samples) + 1
      ensures currentAvgPos == if old(currentAvgPos) + 1 == avgCount then 0 else old(currentAvgPos) + 1
      ensures overflown <==> old(overflown) || old(currentAvgPos) + 1 == avgCount
      ensures forall j :: 0 <= j < bufferSize ==> avgBuffer[old(currentAvgPos), j] == FftShift(output)[j]
      ensures forall r, j :: 0 <= r < avgCount && r != old(currentAvgPos) && 0 <= j < bufferSize ==>
        avgBuffer[r, j] == old(avgBuffer[r, j])
    {
      AverageFunction(true, output);
      AverageFunction(false, output);
      currentAvgPos := currentAvgPos + 1;
      if currentAvgPos == avgCount {
        currentAvgPos := 0;
        overflown := true;
      }
      samples := samples + 1;
    }

    /** The sum of column `j` over the first `rows` averaging rows. */
    function ColumnSum(j: nat, rows: nat): real
      requires rows <= avgBuffer.Length0 && j < avgBuffer.Length1
      reads avgBuffer
    {
      if rows == 0 then 0.0 else ColumnSum(j, rows - 1) + avgBuffer[rows - 1, j]
    }

    /** Rows that hold only zeros add nothing to a column sum. */
    lemma {:induction false} ZeroRowsAddNothing(j: nat, lo: nat, hi: nat)
      requires lo <= hi <= avgBuffer.Length0 && j < avgBuffer.Length1
      requires forall r :: lo <= r < hi ==> avgBuffer[r, j] == 0.0
      ensures ColumnSum(j, hi) == ColumnSum(j, lo)
      decreases hi
    {
      if lo < hi {
        ZeroRowsAddNothing(j, lo, hi - 1);
      }
    }

    /**
     * The divisor `SetLineVertices` uses: all rows once they have wrapped,
     * else the rows filled so far. It is the number of rows holding a
     * sample of this round.
     */
    function Divisor(): (d: nat)
      requires Valid()
      reads this
      ensures d == if samples < avgCount then samples else avgCount
      ensures d <= avgCount
    {
      if overflown then avgCount else currentAvgPos
    }

    /** The value both end points of sample point `sig` get. */
    function LineValue(sig: nat): Float
      requires Valid() && sig < bufferSize
      reads this, avgBuffer
    {
      FloatDiv(ColumnSum(sig, avgCount), Divisor())
    }

    /**
     * A line value is the mean of the point's column over the rows filled
     * this round, and NaN (zero over zero) when no FFT was folded in since
     * the reset.
     */
    lemma LineValueIsMean(sig: nat)
      requires Valid() && RoundInvariant() && sig < bufferSize
      ensures samples == 0 ==> LineValue(sig) == NaN
      ensures samples > 0 ==> LineValue(sig) == Num(ColumnSum(sig, Divisor()) / Divisor() as real)
    {
      if !overflown {
        ZeroRowsAddNothing(sig, currentAvgPos, avgCount);
      }
    }

    /**
     * `SetLineVertices`: sums the column of `sig` over all rows and stores
     * the line value in the two floats at `vert`; nothing else changes.
     */
    method SetLineVertices(vert: nat, sig: nat) returns (sigAvg: real)
      requires Valid() && vert + 1 < signalData.Length && sig < bufferSize
      modifies signalData
      ensures sigAvg == ColumnSum(sig, avgCount)
      ensures signalData[vert] == LineValue(sig) && signalData[vert + 1] == LineValue(sig)
      ensures forall k :: 0 <= k < signalData.Length && k != vert && k != vert + 1 ==> signalData[k] == old(signalData[k])
    {
      sigAvg := 0.0;
      var j := 0;
      while j < avgCount
        invariant 0 <= j <= avgCount
        invariant sigAvg == ColumnSum(sig, j)
      {
        sigAvg := sigAvg + avgBuffer[j, sig];
        j := j + 1;
      }
      var value := if overflown then FloatDiv(sigAvg, avgCount) else FloatDiv(sigAvg, currentAvgPos);
      signalData[vert] := value;
      signalData[vert + 1] := value;
    }

    /**
     * The end of a round: every sample point `k` becomes the value of
     * floats `2k+1` and `2k+2`, and float 0 takes point 0. Read as a line
     * list, line `k` runs from point `k-1` to point `k`, so consecutive
     * lines join; floats past `2 * buffer_size` are untouched.
     */
    method FillLineVertices()
      requires Valid()
      modifies signalData
      ensures signalData[0] == LineValue(0)
      ensures forall k :: 0 <= k < bufferSize ==> signalData[2 * k + 1] == LineValue(k) && signalData[2 * k + 2] == LineValue(k)
      ensures forall k :: 2 * bufferSize < k < signalData.Length ==> signalData[k] == old(signalData[k])
    {
      var shift := bufferSize / 2;
      var vertPointIndex := shift * 2;
      var sigPointIndex := shift;
      var sigAvg := SetLineVertices(vertPointIndex, sigPointIndex);
      vertPointIndex := 0;
      sigPointIndex := 0;
      sigAvg := SetLineVertices(vertPointIndex, sigPointIndex);
      FillUpperLines();
      FillLowerLines();
    }

    /** The first loop of the vertex fill: the points of the upper half, at floats past `buffer_size`. */
    method FillUpperLines()
      requires Valid()
      modifies signalData
      ensures forall k :: bufferSize / 2 <= k < bufferSize ==>
        signalData[2 * k + 1] == LineValue(k) && signalData[2 * k + 2] == LineValue(k)
      ensures forall k :: (0 <= k <= bufferSize || 2 * bufferSize < k < signalData.Length) ==> signalData[k] == old(signalData[k])
    {
      var shift := bufferSize / 2;
      var i := 1;
      ghost var done := 0;
      while i < shift * 2 + 1
        invariant i == 2 * done + 1 && done <= shift
        invariant forall k :: shift <= k < shift + done ==>
          signalData[2 * k + 1] == LineValue(k) && signalData[2 * k + 2] == LineValue(k)
        invariant forall k :: (0 <= k <= bufferSize || 2 * bufferSize < k < signalData.Length) ==> signalData[k] == old(signalData[k])
      {
        var vertPointIndex := i + shift * 2;
        var sigPointIndex := (i - 1) / 2 + shift;
        var sigAvg := SetLineVertices(vertPointIndex, sigPointIndex);
        i := i + 2;
        done := done + 1;
      }
    }

    /** The second loop of the vertex fill: the points of the lower half, at floats `1` to `buffer_size`. */
    method FillLowerLines()
      requires Valid()
      modifies signalData
      ensures forall k :: 0 <= k < bufferSize / 2 ==>
        signalData[2 * k + 1] == LineValue(k) && signalData[2 * k + 2] == LineValue(k)
      ensures forall k :: (k == 0 || bufferSize < k < signalData.Length) ==> signalData[k] == old(signalData[k])
    {
      var shift := bufferSize / 2;
      var i := shift * 2 + 1;
      ghost var done := 0;
      while i < bufferSize * 2
        invariant i == shift * 2 + 2 * done + 1 && done <= shift
        invariant forall k :: 0 <= k < done ==>
          signalData[2 * k + 1] == LineValue(k) && signalData[2 * k + 2] == LineValue(k)
        invariant forall k :: (k == 0 || bufferSize < k < signalData.Length) ==> signalData[k] == old(signalData[k])
      {
        var vertPointIndex := i - shift * 2;
        var sigPointIndex := (i - 1) / 2 - shift;
        var sigAvg := SetLineVertices(vertPointIndex, sigPointIndex);
        i := i + 2;
        done := done + 1;
      }
    }
  }

  /** The time row after `p`: one further round the ring of `MAX_TIME_DEPTH` rows. */
  function NextTimePos(p: nat): (q: nat)
    requires p < MAX_TIME_DEPTH
    ensures q < MAX_TIME_DEPTH
    ensures q == (p + 1) % MAX_TIME_DEPTH
  {
    if p + 1 == MAX_TIME_DEPTH then 0 else p + 1
  }

  /** The time row after `k` frames starting from row `p`. */
  function AdvanceTimePos(p: nat, k: nat): (q: nat)
    requires p < MAX_TIME_DEPTH
    ensures q < MAX_TIME_DEPTH
  {
    if k == 0 then p else NextTimePos(AdvanceTimePos(p, k - 1))
  }

  /**
   * Frames walk the rows in order: `k` frames from row `p` reach
   * `(p + k) mod MAX_TIME_DEPTH`, so each row is refreshed exactly once
   * every `MAX_TIME_DEPTH` frames.
   */
  lemma {:induction false} AdvanceTimePosCycles(p: nat, k: nat)
    requires p < MAX_TIME_DEPTH
    ensures AdvanceTimePos(p, k) == (p + k) % MAX_TIME_DEPTH
  {
    if k > 0 {
      AdvanceTimePosCycles(p, k - 1);
      var q := (p + k - 1) % MAX_TIME_DEPTH;
      assert (p + k - 1) == ((p + k - 1) / MAX_TIME_DEPTH) * MAX_TIME_DEPTH + q;
    }
  }

  /** `vk::BufferCopy`: source offset, destination offset, size, in bytes. */
  datatype BufferCopy = BufferCopy(srcOffset: nat, dstOffset: nat, size: nat)

  /** The vertex count `Render` draws: two per FFT bin for every time row. */
  function DrawVertexCount(): (n: nat)
    ensures n * FLOAT_BYTES == ROW_BYTES * MAX_TIME_DEPTH
    ensures n * FLOAT_BYTES <= VERTEX_BUFFER_BYTES
  {
    MAX_BUFFER_SIZE * MAX_TIME_DEPTH * 2
  }

  /** The render-side state of `RadioPipeline`. */
  class RadioPipeline {
    /** `m_settings.currentTimePos`: the row the next copy goes to, plus one. */
    var currentTimePos: nat
    /** The shared `currentTimePos` the calculation thread watches. */
    var sharedTimePos: nat
    /** `m_pauseSignal`. */
    var pauseSignal: bool
    /** `m_paused`. */
    var paused: bool

    ghost predicate Valid()
      reads this
    {
      currentTimePos < MAX_TIME_DEPTH
    }

    /** The pipeline after `Setup`: time position 0, not paused. */
    constructor ()
      ensures Valid()
      ensures currentTimePos == 0 && sharedTimePos == 0 && !pauseSignal && !paused
    {
      currentTimePos := 0;
      sharedTimePos := 0;
      pauseSignal := false;
      paused := false;
    }

    /**
     * `PreRender`: unless paused, advances the time position round the
     * ring, publishes it to the calculation thread and copies one row of
     * signal data to the row of the previous position, which lies inside
     * the vertex buffer. Paused, it does nothing.
     */
    method PreRender() returns (copy: Option<BufferCopy>)
      requires Valid()
      modifies this
      ensures Valid()
      ensures pauseSignal == old(pauseSignal) && paused == old(paused)
      ensures old(pauseSignal) ==> copy == None && currentTimePos == old(currentTimePos) && sharedTimePos == old(sharedTimePos)
      ensures !old(pauseSignal) ==>
        currentTimePos == NextTimePos(old(currentTimePos)) && sharedTimePos == currentTimePos &&
        copy == Some(BufferCopy(0, ROW_BYTES * old(currentTimePos), ROW_BYTES))
      ensures copy.Some? ==> copy.value.dstOffset + copy.value.size <= VERTEX_BUFFER_BYTES
    {
      if !pauseSignal {
        var lastTime := currentTimePos;
        currentTimePos := currentTimePos + 1;
        if currentTimePos == MAX_TIME_DEPTH {
          currentTimePos := 0;
        }
        sharedTimePos := currentTimePos;
        copy := Some(BufferCopy(0, ROW_BYTES * lastTime, ROW_BYTES));
      } else {
        copy := None;
      }
    }

    /**
     * `Render`: unless paused, draws every row of the ring; paused, it
     * draws nothing and acknowledges the pause.
     */
    method Render() returns (drawCount: Option<nat>)
      modifies this
      ensures currentTimePos == old(currentTimePos) && sharedTimePos == old(sharedTimePos) && pauseSignal == old(pauseSignal)
      ensures !old(pauseSignal) ==> drawCount == Some(DrawVertexCount()) && paused == old(paused)
      ensures old(pauseSignal) ==> drawCount == None && paused
    {
      if !pauseSignal {
        drawCount := Some(MAX_BUFFER_SIZE * MAX_TIME_DEPTH * 2);
      } else {
        drawCount := None;
        paused := true;
      }
    }

    /** `PauseRender`: raises the pause signal (the wait for `Render` to acknowledge it is not modelled). */
    method PauseRender()
      modifies this
      ensures pauseSignal
      ensures currentTimePos == old(currentTimePos) && sharedTimePos == old(sharedTimePos) && paused == old(paused)
    {
      pauseSignal := true;
    }
  }
}
