/** A windowed mean: the mean of the last `maxSize` samples, kept up to date
    incrementally in constant time per sample. Arithmetic is exact (`real`). */
module MovingAverage {

  function Sum(s: seq<int>): int {
    if s == [] then 0 else s[0] + Sum(s[1..])
  }

  /** The arithmetic mean of `s`; 0 for no samples. */
  function Mean(s: seq<int>): real {
    if s == [] then 0.0 else Sum(s) as real / |s| as real
  }

  lemma {:induction false} SumAppend(s: seq<int>, x: int)
    ensures Sum(s + [x]) == Sum(s) + x
  {
    if s == [] {
      assert [] + [x] == [x];
    } else {
      assert (s + [x])[1..] == s[1..] + [x];
      SumAppend(s[1..], x);
    }
  }

  predicate NonNegative(s: seq<int>) {
    forall i :: 0 <= i < |s| ==> s[i] >= 0
  }

  /** Samples that are never negative have a mean that is never negative. */
  lemma {:induction false} MeanOfNonNegative(s: seq<int>)
    requires NonNegative(s)
    ensures Sum(s) >= 0 && Mean(s) >= 0.0
  {
    if s != [] {
      assert NonNegative(s[1..]);
      MeanOfNonNegative(s[1..]);
    }
  }

  /** The window after one more sample: the oldest sample leaves when the
      window already holds `capacity` samples, and the new one joins at the
      back. */
  function Slide(window: seq<int>, capacity: nat, x: int): (w: seq<int>)
    requires capacity >= 1
    ensures |window| <= capacity ==>
      |w| == if |window| < capacity then |window| + 1 else capacity
    ensures |window| <= capacity ==> w == Newest(window + [x], capacity)
  {
    if |window| >= capacity then
      assert (window + [x])[1..] == window[1..] + [x];
      window[1..] + [x]
    else window + [x]
  }

  /** The last `n` elements of `s` (all of them when there are fewer). */
  function Newest(s: seq<int>, n: nat): seq<int> {
    if |s| <= n then s else s[|s| - n..]
  }

  /** The window after feeding `samples` one by one into an empty window. */
  function Replay(samples: seq<int>, capacity: nat): (w: seq<int>)
    requires capacity >= 1
    ensures |w| <= capacity
  {
    if samples == [] then []
    else
      var prev := Replay(samples[..|samples| - 1], capacity);
      Slide(prev, capacity, samples[|samples| - 1])
  }

  /** Whatever samples were fed, the window holds exactly the newest
      `capacity` of them, oldest first. */
  lemma {:induction false} ReplayIsNewest(samples: seq<int>, capacity: nat)
    requires capacity >= 1
    ensures Replay(samples, capacity) == Newest(samples, capacity)
  {
    if samples != [] {
      var init := samples[..|samples| - 1];
      var x := samples[|samples| - 1];
      ReplayIsNewest(init, capacity);
      var prev := Replay(init, capacity);
      assert init + [x] == samples;
      assert Replay(samples, capacity) == Newest(prev + [x], capacity);
      if |init| > capacity {
        var k := |init| - capacity;
        assert prev + [x] == samples[k..];
        assert samples[k..][1..] == samples[k + 1..];
      }
    }
  }

  /** The full-window step: dropping the oldest sample's share and adding the
      new sample's share, both over the unchanged count, gives the mean of the
      slid window. */
  lemma EvictStep(window: seq<int>, x: int)
    requires |window| >= 1
    ensures Mean(window) - window[0] as real / |window| as real + x as real / |window| as real
            == Mean(window[1..] + [x])
  {
    var n := |window| as real;
    SumAppend(window[1..], x);
    assert Sum(window[1..] + [x]) == Sum(window) - window[0] + x;
    assert |window[1..] + [x]| == |window|;
    calc {
      Mean(window) - window[0] as real / n + x as real / n;
      Sum(window) as real / n - window[0] as real / n + x as real / n;
      (Sum(window) - window[0] + x) as real / n;
      Mean(window[1..] + [x]);
    }
  }

  /** The growing-window step: rescaling the mean from n to n + 1 samples and
      adding the new sample's share gives the mean of the longer window. */
  lemma GrowStep(window: seq<int>, x: int)
    ensures Mean(window) - Mean(window) / (|window| + 1) as real + x as real / (|window| + 1) as real
            == Mean(window + [x])
  {
    var n := |window| as real;
    var m := n + 1.0;
    SumAppend(window, x);
    assert |window + [x]| as real == m;
    if window == [] {
      assert Mean(window + [x]) == x as real;
    } else {
      var a := Mean(window);
      assert a * n == Sum(window) as real;
      calc {
        a - a / m + x as real / m;
        (a * m - a + x as real) / m;
        (a * n + x as real) / m;
        (Sum(window) + x) as real / m;
        Mean(window + [x]);
      }
    }
  }

  class MovingAverage {
    /** The window capacity, at least 1. */
    const maxSize: nat
    /** The retained samples, oldest first (the source's deque). */
    var data: seq<int>
    var average: real

    ghost predicate Valid()
      reads this
    {
      1 <= maxSize && |data| <= maxSize && average == Mean(data)
    }

    /** `New`: a capacity of 0 or less becomes 1; no samples, average 0. */
    constructor (size: int)
      ensures Valid()
      ensures maxSize == (if size <= 0 then 1 else size)
      ensures data == [] && average == 0.0
    {
      maxSize := if size <= 0 then 1 else size;
      data := [];
      average := 0.0;
    }

    /** `Update`: slide the window and adjust the average in place, returning
        the new average, which is the mean of the retained samples. */
    method Update(x: int) returns (r: real)
      requires Valid()
      modifies this
      ensures Valid()
      ensures data == Slide(old(data), maxSize, x)
      ensures |data| == if |old(data)| < maxSize then |old(data)| + 1 else maxSize
      ensures r == average == Mean(data)
      ensures old(data) == [] ==> average == x as real
    {
      ghost var before := data;
      var len := |data|;
      if len >= maxSize {
        // forget the oldest sample
        var oldest := data[0];
        data := data[1..];
        average := average - oldest as real / len as real;
        len := len - 1;
        EvictStep(before, x);
      } else {
        // make room for the new sample
        average := average - average / (len + 1) as real;
        GrowStep(before, x);
      }
      data := data + [x];
      len := len + 1;
      average := average + x as real / len as real;
      r := average;
    }
  }

  /** Capacity 3 fed 10, 20, 30, 0: the averages are 10, 15, 20, and 50/3 once
      the 10 has been evicted. */
  method WorkedExample() returns (a1: real, a2: real, a3: real, a4: real)
    ensures a1 == 10.0 && a2 == 15.0 && a3 == 20.0 && a4 == 50.0 / 3.0
  {
    var ma := new MovingAverage(3);
    a1 := ma.Update(10);
    a2 := ma.Update(20);
    assert ma.data == [10, 20] && Sum([10, 20]) == 30;
    a3 := ma.Update(30);
    assert ma.data == [10, 20, 30] && Sum([10, 20, 30]) == 60;
    a4 := ma.Update(0);
    assert ma.data == [20, 30, 0] && Sum([20, 30, 0]) == 50;
  }
}
