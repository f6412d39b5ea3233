/**
 The sizes of the chunks of an upload (`CalculateNextChunkSize` in src/engine/controlsocket.cpp), over whole
 runs: whatever speeds are measured, the chunks add up to the file, and they stay within the limits for their
 size and number exactly if the file fits into them at all.
 */
module ChunkPlanner {
  /** Division as the machine does it, towards zero. */
  function TruncDiv(a: int, b: int): int
    requires b != 0
  {
    if a >= 0 then if b > 0 then a / b else -(a / -b)
    else if b > 0 then -(-a / b) else -a / -b
  }

  /**
   The least size of a chunk, the size every chunk but the last should be a multiple of (or 0), the number of
   parts allowed (or 0) and the size no chunk may exceed (or 0).
   */
  datatype Limits = Limits(min: int, multiple: int, parts: int, max: int) {
    predicate Valid() {
      min >= 1 && multiple >= 0 && parts >= 0 && max >= 0
    }
  }

  /** What was measured for the last chunk: its size and how many milliseconds it took. */
  datatype Measured = Measured(size: int, duration: int)

  /** The size for thirty seconds at the measured speed. */
  function BySpeed(limits: Limits, last: Measured): int {
    if last.duration != 0 && last.size != 0 then
      var size := TruncDiv(last.size * 30000, last.duration);
      if size > limits.min then size else limits.min
    else limits.min
  }

  /** Makes the chunk large enough for the parts that are left. */
  function ByParts(limits: Limits, size: int, remaining: int, count: int): int {
    var left := limits.parts - count;
    if limits.parts != 0 && size * left < remaining then
      if left <= 1 then remaining else TruncDiv(remaining, left - 1)
    else size
  }

  function RoundedUp(size: int, multiple: int): int
    requires multiple >= 0
  {
    if multiple != 0 && size % multiple != 0 then size + multiple - size % multiple else size
  }

  function NextChunk(limits: Limits, remaining: int, last: Measured, count: int): (chunk: int)
    requires limits.Valid()
    ensures remaining <= 0 ==> chunk == 0
  {
    if remaining <= 0 then 0
    else
      var size := RoundedUp(ByParts(limits, BySpeed(limits, last), remaining, count), limits.multiple);
      var capped := if limits.max != 0 && size > limits.max then limits.max else size;
      if capped > remaining then remaining else capped
  }

  /** The rest of the file can still be sent in the parts that are left. */
  predicate Fits(limits: Limits, remaining: int, count: int) {
    limits.parts != 0 && remaining > 0 ==>
      count < limits.parts && (limits.max != 0 ==> remaining <= limits.max * (limits.parts - count))
  }

  lemma RoundingIsUp(size: int, multiple: int)
    requires multiple >= 0 && size >= 1
    ensures RoundedUp(size, multiple) >= size
    ensures multiple != 0 ==> RoundedUp(size, multiple) % multiple == 0
  {
    if multiple != 0 {
      var m := size % multiple;
      assert size == multiple * (size / multiple) + m;
      if m != 0 {
        assert RoundedUp(size, multiple) == multiple * (size / multiple + 1);
        MultipleOf(multiple, size / multiple + 1);
      }
    }
  }

  lemma MultipleOf(m: int, k: int)
    requires m > 0
    ensures (m * k) % m == 0
  {
    var q, r := (m * k) / m, (m * k) % m;
    assert m * k == m * q + r;
    Distribute(m, k, q);
    assert r == m * (k - q);
    ProductSign(m, k - q);
  }

  lemma Distribute(m: int, a: int, b: int)
    ensures m * (a - b) == m * a - m * b
  {
  }

  lemma ProductSign(m: int, d: int)
    requires m > 0
    ensures d >= 1 ==> m * d >= m
    ensures d <= -1 ==> m * d <= -m
    ensures d <= 0 ==> m * d <= 0
  {
    Distribute(m, d, 1);
    Distribute(m, d, -1);
    if d >= 1 {
      ProductOrder(0, d - 1, m);
    } else {
      ProductOrder(d, 0, m);
      if d <= -1 {
        ProductOrder(d + 1, 0, m);
      }
    }
  }

  lemma ProductOrder(a: int, b: int, c: int)
    requires a <= b && c >= 0
    ensures a * c <= b * c
  {
    assert (b - a) * c >= 0;
  }

  /** The size asked for is positive, and either enough if repeated or at least an even share of the parts but one. */
  lemma ByPartsIsEnough(limits: Limits, size: int, remaining: int, count: int)
    requires limits.Valid() && size >= 1 && remaining >= 1 && Fits(limits, remaining, count)
    ensures
      var r, left := ByParts(limits, size, remaining, count), limits.parts - count;
      && r >= 1
      && (limits.parts != 0 && left == 1 ==> r >= remaining)
      && (limits.parts != 0 && left > 1 ==> r * left >= remaining || (r + 1) * (left - 1) > remaining)
  {
    var left := limits.parts - count;
    if limits.parts != 0 && size * left < remaining && left > 1 {
      var d := left - 1;
      var r := remaining / d;
      assert remaining == d * r + remaining % d;
      ProductOrder(1, size, left);
      ProductSign(d, r);
      Distribute(d, r, -1);
    }
  }

  /** One chunk: it is positive and within bounds, and what is left still fits. */
  lemma ChunkKeepsFitting(limits: Limits, remaining: int, last: Measured, count: int)
    requires limits.Valid() && remaining >= 1 && Fits(limits, remaining, count)
    ensures
      var chunk := NextChunk(limits, remaining, last, count);
      && 1 <= chunk <= remaining
      && (limits.max != 0 ==> chunk <= limits.max)
      && Fits(limits, remaining - chunk, count + 1)
  {
    var base := BySpeed(limits, last);
    var wanted := ByParts(limits, base, remaining, count);
    var size := RoundedUp(wanted, limits.multiple);
    var chunk := NextChunk(limits, remaining, last, count);
    ByPartsIsEnough(limits, base, remaining, count);
    RoundingIsUp(wanted, limits.multiple);
    hide RoundedUp, ByParts, BySpeed;
    assert size >= wanted >= 1 && 1 <= chunk <= remaining;
    if limits.parts != 0 && chunk < remaining {
      var left := limits.parts - count;
      assert left > 1;
      if limits.max != 0 {
        if chunk == limits.max {
          Distribute(limits.max, left, 1);
        } else {
          RestFits(limits.max, left, wanted, chunk, remaining);
        }
      }
    }
  }

  lemma RestFits(max: int, left: int, wanted: int, chunk: int, remaining: int)
    requires left > 1 && 1 <= wanted <= chunk < max
    requires wanted * left >= remaining || (wanted + 1) * (left - 1) > remaining
    ensures remaining - chunk <= max * (left - 1)
  {
    Distribute(wanted, left, 1);
    ProductOrder(wanted, max, left - 1);
    ProductOrder(wanted + 1, max, left - 1);
  }

  /** If the multiple divides the maximum, every chunk but the last is a multiple of it. */
  lemma ChunkIsMultiple(limits: Limits, remaining: int, last: Measured, count: int)
    requires limits.Valid() && remaining >= 1 && Fits(limits, remaining, count)
    requires limits.multiple != 0 && limits.max % limits.multiple == 0
    ensures
      var chunk := NextChunk(limits, remaining, last, count);
      chunk == remaining || chunk % limits.multiple == 0
  {
    var base := BySpeed(limits, last);
    ByPartsIsEnough(limits, base, remaining, count);
    RoundingIsUp(ByParts(limits, base, remaining, count), limits.multiple);
    hide RoundedUp, ByParts, BySpeed;
  }

  // ---- How large a chunk is ----

  /** The most that is sent in thirty seconds at the measured speed, but no less than the minimum. */
  predicate IsSpeed(limits: Limits, last: Measured, speed: int) {
    && speed >= limits.min
    && (last.size == 0 || last.duration == 0 ==> speed == limits.min)
    && (last.size > 0 && last.duration > 0 ==>
          30000 * last.size < (speed + 1) * last.duration && (speed > limits.min ==> speed * last.duration <= 30000 * last.size))
  }

  /** The speed if it is enough for the parts left, or else an even share of those but one. */
  predicate IsShare(limits: Limits, remaining: int, count: int, speed: int, share: int) {
    var left := limits.parts - count;
    if limits.parts == 0 || speed * left >= remaining then share == speed
    else if left <= 1 then share == remaining
    else share * (left - 1) <= remaining < (share + 1) * (left - 1)
  }

  /** The next multiple. */
  predicate IsRounded(multiple: int, share: int, rounded: int) {
    if multiple == 0 then rounded == share else share <= rounded < share + multiple && rounded % multiple == 0
  }

  lemma QuotientIs(a: int, b: int)
    requires a >= 0 && b > 0
    ensures a / b * b <= a < (a / b + 1) * b
  {
    assert a == b * (a / b) + a % b;
  }

  lemma SpeedIs(limits: Limits, last: Measured)
    requires limits.Valid() && last.size >= 0 && last.duration >= 0
    ensures IsSpeed(limits, last, BySpeed(limits, last))
  {
    if last.size > 0 && last.duration > 0 {
      QuotientIs(last.size * 30000, last.duration);
      var q := last.size * 30000 / last.duration;
      assert TruncDiv(last.size * 30000, last.duration) == q;
      if q <= limits.min {
        ProductOrder(q + 1, limits.min + 1, last.duration);
      }
    }
  }

  lemma RoundedIs(multiple: int, share: int)
    requires multiple >= 0
    ensures IsRounded(multiple, share, RoundedUp(share, multiple))
  {
    if multiple != 0 {
      var q, m := share / multiple, share % multiple;
      assert share == multiple * q + m;
      if m != 0 {
        Distribute(multiple, q, -1);
        assert RoundedUp(share, multiple) == multiple * (q + 1);
        MultipleOf(multiple, q + 1);
      }
    }
  }

  /** A chunk is what thirty seconds or the parts call for, rounded up, but no more than the maximum and what is left. */
  lemma ChunkIsMeasured(limits: Limits, remaining: int, last: Measured, count: int) returns (speed: int, share: int, rounded: int)
    requires limits.Valid() && remaining >= 1 && last.size >= 0 && last.duration >= 0
    ensures IsSpeed(limits, last, speed) && IsShare(limits, remaining, count, speed, share) && IsRounded(limits.multiple, share, rounded)
    ensures
      var chunk := NextChunk(limits, remaining, last, count);
      && chunk <= rounded && chunk <= remaining && (limits.max != 0 ==> chunk <= limits.max)
      && (chunk == rounded || chunk == remaining || (limits.max != 0 && chunk == limits.max))
  {
    speed := BySpeed(limits, last);
    share := ByParts(limits, speed, remaining, count);
    rounded := RoundedUp(share, limits.multiple);
    SpeedIs(limits, last);
    RoundedIs(limits.multiple, share);
    var left := limits.parts - count;
    if left > 1 {
      QuotientIs(remaining, left - 1);
    }
    hide BySpeed, RoundedUp, IsSpeed, IsRounded;
  }

  // ---- Whole runs ----

  /** The chunks of a run, one for each duration measured, until nothing is left. */
  function Chunks(limits: Limits, remaining: int, last: Measured, count: int, durations: seq<int>): seq<int>
    requires limits.Valid()
    decreases |durations|
  {
    if remaining <= 0 || durations == [] then []
    else
      var chunk := NextChunk(limits, remaining, last, count);
      [chunk] + Chunks(limits, remaining - chunk, Measured(chunk, durations[0]), count + 1, durations[1..])
  }

  function Sum(chunks: seq<int>): int {
    if chunks == [] then 0 else chunks[0] + Sum(chunks[1..])
  }

  /**
   Whatever the speeds, every chunk of a file that fits is positive and within the maximum, there are no more
   chunks than parts, and once there have been as many chunks as parts, or as characters, the file is sent.
   */
  lemma {:induction false} RunsFinish(limits: Limits, remaining: int, last: Measured, count: int, durations: seq<int>)
    requires limits.Valid() && Fits(limits, remaining, count)
    ensures
      var chunks := Chunks(limits, remaining, last, count, durations);
      && (forall k :: 0 <= k < |chunks| ==> 1 <= chunks[k] <= remaining && (limits.max != 0 ==> chunks[k] <= limits.max))
      && (remaining > 0 ==> Sum(chunks) <= remaining)
      && (limits.parts != 0 && remaining > 0 ==> |chunks| <= limits.parts - count)
      && (remaining > 0 && (|durations| >= remaining || (limits.parts != 0 && |durations| >= limits.parts - count)) ==>
            Sum(chunks) == remaining)
    decreases |durations|
  {
    if remaining > 0 && durations != [] {
      var chunk := NextChunk(limits, remaining, last, count);
      ChunkKeepsFitting(limits, remaining, last, count);
      hide NextChunk, Fits;
      RunsFinish(limits, remaining - chunk, Measured(chunk, durations[0]), count + 1, durations[1..]);
      var rest := Chunks(limits, remaining - chunk, Measured(chunk, durations[0]), count + 1, durations[1..]);
      assert ([chunk] + rest)[1..] == rest;
      if remaining == chunk {
        assert rest == [];
      }
    } else {
      assert remaining > 0 ==> Fits(limits, remaining, count) && (limits.parts != 0 ==> count < limits.parts);
    }
  }

  predicate AllMultiples(chunks: seq<int>, multiple: int)
    requires multiple != 0
  {
    forall k :: 0 <= k < |chunks| - 1 ==> chunks[k] % multiple == 0
  }

  lemma OneMoreMultiple(chunk: int, rest: seq<int>, multiple: int)
    requires multiple != 0 && AllMultiples(rest, multiple) && (rest != [] ==> chunk % multiple == 0)
    ensures AllMultiples([chunk] + rest, multiple)
  {
  }

  /** All chunks but the last of a run are multiples, if the maximum is one. */
  lemma {:induction false} RunsAreMultiples(limits: Limits, remaining: int, last: Measured, count: int, durations: seq<int>)
    requires limits.Valid() && Fits(limits, remaining, count)
    requires limits.multiple != 0 && limits.max % limits.multiple == 0
    ensures AllMultiples(Chunks(limits, remaining, last, count, durations), limits.multiple)
    decreases |durations|
  {
    if remaining > 0 && durations != [] {
      var chunk := NextChunk(limits, remaining, last, count);
      var rest := Chunks(limits, remaining - chunk, Measured(chunk, durations[0]), count + 1, durations[1..]);
      assert rest != [] ==> chunk != remaining;
      ChunkKeepsFitting(limits, remaining, last, count);
      ChunkIsMultiple(limits, remaining, last, count);
      hide NextChunk, Fits, AllMultiples;
      RunsAreMultiples(limits, remaining - chunk, Measured(chunk, durations[0]), count + 1, durations[1..]);
      OneMoreMultiple(chunk, rest, limits.multiple);
    }
  }

  /** No chunk is ever larger than the maximum, fitting or not. */
  lemma {:induction false} NeverAboveMax(limits: Limits, remaining: int, last: Measured, count: int, durations: seq<int>)
    requires limits.Valid() && limits.max != 0
    ensures
      var chunks := Chunks(limits, remaining, last, count, durations);
      Sum(chunks) <= limits.max * |chunks|
    decreases |durations|
  {
    if remaining > 0 && durations != [] {
      var chunk := NextChunk(limits, remaining, last, count);
      var rest := Chunks(limits, remaining - chunk, Measured(chunk, durations[0]), count + 1, durations[1..]);
      assert chunk <= limits.max;
      hide NextChunk;
      NeverAboveMax(limits, remaining - chunk, Measured(chunk, durations[0]), count + 1, durations[1..]);
      assert ([chunk] + rest)[1..] == rest;
      assert limits.max * (|rest| + 1) == limits.max + limits.max * |rest|;
    } else {
      assert limits.max * 0 == 0;
    }
  }

  /**
   With limits on the size and the number of chunks, a run of as many chunks as there are parts sends the file
   exactly if the parts can hold it.
   */
  lemma FinishesIffItFits(limits: Limits, total: int, last: Measured, durations: seq<int>)
    requires limits.Valid() && limits.parts != 0 && limits.max != 0 && total > 0 && |durations| == limits.parts
    ensures Sum(Chunks(limits, total, last, 0, durations)) == total <==> total <= limits.max * limits.parts
  {
    assert total <= limits.max * limits.parts ==> Fits(limits, total, 0);
    hide Chunks, Sum, Fits, NextChunk;
    if total <= limits.max * limits.parts {
      RunsFinish(limits, total, last, 0, durations);
    } else {
      NeverAboveMax(limits, total, last, 0, durations);
      NoMoreThanDurations(limits, total, last, 0, durations);
      var n := |Chunks(limits, total, last, 0, durations)|;
      ProductOrder(n, limits.parts, limits.max);
    }
  }

  lemma {:induction false} NoMoreThanDurations(limits: Limits, remaining: int, last: Measured, count: int, durations: seq<int>)
    requires limits.Valid()
    ensures |Chunks(limits, remaining, last, count, durations)| <= |durations|
    decreases |durations|
  {
    if remaining > 0 && durations != [] {
      var chunk := NextChunk(limits, remaining, last, count);
      NoMoreThanDurations(limits, remaining - chunk, Measured(chunk, durations[0]), count + 1, durations[1..]);
    }
  }
}
