/**
  The moving average used by the learning congestion controller: a fixed-capacity
  circular buffer of samples whose `Avg` is the mean of the most recent samples.
  Samples are `float` in the source; here they are `real` (no rounding).
 */
module TcpLearning {

  /** Sum of a sequence of samples, peeling off the last one. */
  function Sum(s: seq<real>): real
  {
    if s == [] then 0.0 else Sum(s[..|s| - 1]) + s[|s| - 1]
  }

  /** Arithmetic mean; the mean of no samples is 0. */
  function Mean(s: seq<real>): real
  {
    if s == [] then 0.0 else Sum(s) / |s| as real
  }

  /** The last `min(|items|, n)` items of a history: what a buffer of capacity `n` averages. */
  function Window(items: seq<real>, n: nat): (w: seq<real>)
    ensures |w| == if |items| < n then |items| else n
    ensures w == items[|items| - |w|..]
  {
    if |items| < n then items else items[|items| - n..]
  }

  lemma {:induction false} SumAppend(a: seq<real>, b: seq<real>)
    ensures Sum(a + b) == Sum(a) + Sum(b)
    decreases |b|
  {
    if b == [] {
      assert a + b == a;
    } else {
      var n := |b| - 1;
      assert (a + b)[..|a + b| - 1] == a + b[..n];
      SumAppend(a, b[..n]);
    }
  }

  /** Summing a rotated buffer gives the same total. */
  lemma SumRotate(a: seq<real>, b: seq<real>)
    ensures Sum(a + b) == Sum(b + a)
  {
    SumAppend(a, b);
    SumAppend(b, a);
  }

  /** Slots that were never written hold 0 and add nothing to the sum. */
  lemma {:induction false} SumZeros(z: seq<real>)
    requires forall k :: 0 <= k < |z| ==> z[k] == 0.0
    ensures Sum(z) == 0.0
  {
    if z != [] {
      SumZeros(z[..|z| - 1]);
    }
  }

  /** Once the history is at least `n` long, a new item pushes the oldest out of the window. */
  lemma WindowStep(items: seq<real>, n: nat, item: real)
    requires 0 < n <= |items|
    ensures Window(items + [item], n) == Window(items, n)[1..] + [item]
  {
    var w := Window(items, n);
    var w' := Window(items + [item], n);
    assert |w'| == n;
    forall k | 0 <= k < n
      ensures w'[k] == (w[1..] + [item])[k]
    {
      if k < n - 1 {
        assert w'[k] == (items + [item])[|items| + 1 - n + k];
      }
    }
  }

  /**
    Overwriting the oldest slot of a full buffer and advancing the index
    rotates the read-out: the oldest sample goes, `item` comes in last.
   */
  lemma RotateStep(b: seq<real>, idx: nat, item: real)
    requires idx < |b|
    ensures var b', next := b[idx := item], (idx + 1) % |b|;
            b'[next..] + b'[..next] == (b[idx..] + b[..idx])[1..] + [item]
  {
    var b', next := b[idx := item], (idx + 1) % |b|;
    if idx + 1 == |b| {
      assert next == 0;
      assert b'[next..] + b'[..next] == b[..idx] + [item];
    } else {
      assert next == idx + 1;
      assert b'[next..] == b[idx + 1..];
      assert b'[..next] == b[..idx] + [item];
    }
  }

  /**
    How a buffer of capacity `n` holds the history `items`, given the write
    index and the underfilled flag. While underfilled the history sits in the
    first `index` slots with zeros after it; once full, reading from the write
    index around to just before it gives the last `n` samples, oldest first.
   */
  ghost predicate Layout(b: seq<real>, index: nat, underfilled: bool, items: seq<real>, n: nat)
  {
    |b| == n &&
    (n == 0 ==> index == 0 && underfilled && items == []) &&
    (n > 0 ==> index < n && (underfilled <==> |items| < n)) &&
    (underfilled ==> b[..index] == items && forall k :: index <= k < n ==> b[k] == 0.0) &&
    (!underfilled ==> b[index..] + b[..index] == Window(items, n))
  }

  /** Advancing a write index modulo `n` wraps to 0 exactly after the last slot. */
  lemma AdvanceIndex(index: nat, n: nat)
    requires index < n
    ensures (index + 1) % n == if index + 1 == n then 0 else index + 1
  {
  }

  /** One enqueue keeps the layout: the step the `MovingAvg.Enqueue` method takes. */
  lemma LayoutStep(b: seq<real>, index: nat, underfilled: bool, items: seq<real>, n: nat, item: real)
    requires Layout(b, index, underfilled, items, n) && n > 0
    ensures var next := if index + 1 == n then 0 else index + 1;
            Layout(b[index := item], next, underfilled && next != 0, items + [item], n)
  {
    if !underfilled {
      FullStep(b, index, items, n, item);
    } else if index + 1 == n {
      FillingStep(b, index, items, n, item);
    } else {
      UnderfilledStep(b, index, items, n, item);
    }
  }

  lemma FullStep(b: seq<real>, index: nat, items: seq<real>, n: nat, item: real)
    requires Layout(b, index, false, items, n) && n > 0
    ensures Layout(b[index := item], if index + 1 == n then 0 else index + 1, false, items + [item], n)
  {
    AdvanceIndex(index, n);
    WindowStep(items, n, item);
    RotateStep(b, index, item);
  }

  lemma FillingStep(b: seq<real>, index: nat, items: seq<real>, n: nat, item: real)
    requires Layout(b, index, true, items, n) && index + 1 == n
    ensures Layout(b[index := item], 0, false, items + [item], n)
  {
    var b' := b[index := item];
    assert b' == b[..index] + [item] == items + [item];
    assert b'[0..] + b'[..0] == b';
    assert |items + [item]| == n;
    assert Window(items + [item], n) == items + [item];
  }

  lemma UnderfilledStep(b: seq<real>, index: nat, items: seq<real>, n: nat, item: real)
    requires Layout(b, index, true, items, n) && index + 1 < n
    ensures Layout(b[index := item], index + 1, true, items + [item], n)
  {
    var b' := b[index := item];
    assert b'[..index + 1] == items + [item];
  }

  class MovingAvg {
    /** m_buffer: allocated once with `maxSize` slots; its length never changes. */
    const buffer: array<real>
    /** m_maxSize */
    const maxSize: nat
    /** m_index: the slot the next sample is written to. */
    var index: nat
    /** m_underfilled: true until the write index has wrapped to 0 once. */
    var underfilled: bool
    /** Every sample ever enqueued, oldest first. */
    ghost var items: seq<real>

    /** The object invariant: the buffer holds the history as `Layout` describes. */
    ghost predicate Valid()
      reads this, buffer
    {
      Layout(buffer[..], index, underfilled, items, maxSize)
    }

    constructor (size: nat)
      ensures Valid() && fresh(buffer)
      ensures maxSize == size && buffer.Length == size
      ensures buffer[..] == seq(size, _ => 0.0)
      ensures index == 0 && underfilled && items == []
    {
      buffer := new real[size](_ => 0.0);
      maxSize := size;
      index := 0;
      underfilled := true;
      items := [];
    }

    /** Record a sample, overwriting the oldest one once the buffer is full. */
    method Enqueue(item: real)
      requires Valid() && maxSize > 0
      modifies this, buffer
      ensures Valid()
      ensures items == old(items) + [item]
      ensures buffer[..] == old(buffer[..])[old(index) := item]
      ensures index == (old(index) + 1) % maxSize
      ensures underfilled == (old(underfilled) && index != 0)
    {
      LayoutStep(buffer[..], index, underfilled, items, maxSize, item);
      AdvanceIndex(index, maxSize);
      buffer[index] := item;
      assert buffer[..] == old(buffer[..])[index := item];
      var nextIndex := (index + 1) % maxSize;
      if nextIndex == 0 && underfilled {
        underfilled := false;
      }
      items := items + [item];
      index := nextIndex;
    }

    /** The mean of the last `min(k, maxSize)` samples after `k` enqueues; 0 before any. */
    method Avg() returns (r: real)
      requires Valid()
      ensures r == Mean(Window(items, maxSize))
      ensures items == [] ==> r == 0.0
    {
      if underfilled && index == 0 {
        return 0.0;
      }
      var size: nat;
      if underfilled {
        size := index;
      } else {
        size := maxSize;
      }
      var sum := 0.0;
      for k := 0 to buffer.Length
        invariant sum == Sum(buffer[..k])
      {
        assert buffer[..k + 1][..k] == buffer[..k];
        sum := sum + buffer[k];
      }
      assert buffer[..buffer.Length] == buffer[..];
      BufferSum();
      r := sum / size as real;
    }

    /** The key invariant at work: the whole buffer sums to the sum of the window. */
    lemma BufferSum()
      requires Valid()
      ensures Sum(buffer[..]) == Sum(Window(items, maxSize))
    {
      if underfilled {
        assert buffer[..] == buffer[..index] + buffer[index..];
        SumAppend(buffer[..index], buffer[index..]);
        SumZeros(buffer[index..]);
      } else {
        assert buffer[..] == buffer[..index] + buffer[index..];
        SumRotate(buffer[..index], buffer[index..]);
      }
    }
  }

  /** Sums of one to three samples. */
  lemma SumSmall(x: real, y: real, z: real)
    ensures Sum([x]) == x && Sum([x, y]) == x + y && Sum([x, y, z]) == x + y + z
  {
    assert [x][..0] == [];
    assert [x, y][..1] == [x];
    assert [x, y, z][..2] == [x, y];
  }

  /** The unit test's first read: two samples in a buffer of capacity 3. */
  lemma TraceMeanTwo(a: real, b: real)
    ensures Mean(Window([] + [a] + [b], 3)) == (a + b) / 2.0
  {
    assert [] + [a] + [b] == [a, b];
    SumSmall(a, b, 0.0);
  }

  /** The second read: four samples, of which the window keeps the last three. */
  lemma TraceMeanFour(a: real, b: real, c: real, d: real)
    ensures Mean(Window([] + [a] + [b] + [c] + [d], 3)) == (b + c + d) / 3.0
  {
    assert Window([] + [a] + [b] + [c] + [d], 3) == [b, c, d];
    SumSmall(b, c, d);
  }

  /** The third read: six samples, of which the window keeps the last three. */
  lemma TraceMeanSix(a: real, b: real, c: real, d: real, e: real, f: real)
    ensures Mean(Window([] + [a] + [b] + [c] + [d] + [e] + [f], 3)) == (d + e + f) / 3.0
  {
    assert Window([] + [a] + [b] + [c] + [d] + [e] + [f], 3) == [d, e, f];
    SumSmall(d, e, f);
  }

  /** Two enqueues in a row, the step the unit test repeats between reads. */
  method EnqueueTwo(avg: MovingAvg, x: real, y: real)
    requires avg.Valid() && avg.maxSize > 0
    modifies avg, avg.buffer
    ensures avg.Valid() && avg.items == old(avg.items) + [x] + [y]
  {
    avg.Enqueue(x);
    avg.Enqueue(y);
  }

  /** The unit test's first read: after samples `a`, `b` the average is their mean. */
  method ReadTwo(avg: MovingAvg, a: real, b: real) returns (r: real)
    requires avg.Valid() && avg.maxSize == 3 && avg.items == [] + [a] + [b]
    ensures r == (a + b) / 2.0
  {
    TraceMeanTwo(a, b);
    r := avg.Avg();
  }

  /** The second read: after four samples the average is that of the last three. */
  method ReadFour(avg: MovingAvg, a: real, b: real, c: real, d: real) returns (r: real)
    requires avg.Valid() && avg.maxSize == 3 && avg.items == [] + [a] + [b] + [c] + [d]
    ensures r == (b + c + d) / 3.0
  {
    TraceMeanFour(a, b, c, d);
    r := avg.Avg();
  }

  /** The third read: after six samples the average is that of the last three. */
  method ReadSix(avg: MovingAvg, a: real, b: real, c: real, d: real, e: real, f: real) returns (r: real)
    requires avg.Valid() && avg.maxSize == 3 && avg.items == [] + [a] + [b] + [c] + [d] + [e] + [f]
    ensures r == (d + e + f) / 3.0
  {
    TraceMeanSix(a, b, c, d, e, f);
    r := avg.Avg();
  }

  /**
    The unit test's steps on any six samples: a moving average of capacity 3,
    read when empty and after every second enqueue.
   */
  method Trace(a: real, b: real, c: real, d: real, e: real, f: real)
    returns (initial: real, afterTwo: real, afterFour: real, afterSix: real)
    ensures initial == 0.0
    ensures afterTwo == (a + b) / 2.0 && afterFour == (b + c + d) / 3.0 && afterSix == (d + e + f) / 3.0
  {
    var avg := new MovingAvg(3);
    initial := avg.Avg();
    EnqueueTwo(avg, a, b);
    afterTwo := ReadTwo(avg, a, b);
    EnqueueTwo(avg, c, d);
    afterFour := ReadFour(avg, a, b, c, d);
    EnqueueTwo(avg, e, f);
    afterSix := ReadSix(avg, a, b, c, d, e, f);
  }

  /** The unit test itself: samples 1 to 6 give 0, 1.5, 3 and 5. */
  method UnitTestTrace() returns (initial: real, afterTwo: real, afterFour: real, afterSix: real)
    ensures initial == 0.0 && afterTwo == 1.5 && afterFour == 3.0 && afterSix == 5.0
  {
    initial, afterTwo, afterFour, afterSix := Trace(1.0, 2.0, 3.0, 4.0, 5.0, 6.0);
  }
}
