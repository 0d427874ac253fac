/**
  * The wrapping label counter used by the Weisfeiler--Lehman relabelling: it hands out
  * str(start), str(start+1), ..., str(start+length-1) and then starts over.
  * The standalone LabelGenerator.py and the copy at the top of weisfeiler_lehman.py are
  * the same class; it is modelled once.
  */
module LabelGenerator {
  import opened Wrappers
  import opened Decimal

  /** The integers lo, lo+1, ..., hi-1 (numpy's `arange(lo, hi, 1)`). */
  function Range(lo: int, hi: int): (r: seq<int>)
    ensures |r| == if lo < hi then hi - lo else 0
    ensures forall i :: 0 <= i < |r| ==> r[i] == lo + i
    decreases hi - lo
  {
    if lo >= hi then [] else [lo] + Range(lo + 1, hi)
  }

  /** The label handed out by the k-th call (counting from 0) of a generator built with
      (start, length): the sequence wraps around every `length` calls. */
  function NthLabel(start: int, length: int, k: nat): string
    requires length > 0
  {
    IntToString(start + k % length)
  }

  /** Euclidean division is unique: x == q * m + r with 0 <= r < m fixes x % m. */
  lemma ModUnique(x: int, m: int, q: int, r: int)
    requires m > 0 && 0 <= r < m && x == q * m + r
    ensures x % m == r
  {
    var q', r' := x / m, x % m;
    assert (q - q') * m == r' - r;
    if q > q' {
      MulAtLeast(q - q', m);
    } else if q < q' {
      MulAtLeast(q' - q, m);
    }
  }

  lemma MulAtLeast(a: int, m: int)
    requires a >= 1 && m > 0
    ensures a * m >= m
  {
  }

  /** Within one round of `length` calls no label repeats. */
  lemma NthLabelDistinct(start: int, length: int, i: nat, j: nat)
    requires i < length && j < length && i != j
    ensures NthLabel(start, length, i) != NthLabel(start, length, j)
  {
    ModUnique(i, length, 0, i);
    ModUnique(j, length, 0, j);
    assert NthLabel(start, length, i) == IntToString(start + i);
    assert NthLabel(start, length, j) == IntToString(start + j);
    if NthLabel(start, length, i) == NthLabel(start, length, j) {
      IntToStringInjective(start + i, start + j);
    }
  }

  /** Calls k and k + length hand out the same label. */
  lemma NthLabelPeriodic(start: int, length: int, k: nat)
    requires length > 0
    ensures NthLabel(start, length, k + length) == NthLabel(start, length, k)
  {
    var q, r := k / length, k % length;
    ModUnique(k + length, length, q + 1, r);
  }

  /** How the counter `_current_label_index` relates to the number of calls made so far. */
  function CounterAfter(length: int, calls: nat): int
    requires length > 0
  {
    if calls == 0 then 0 else (calls - 1) % length + 1
  }

  lemma CounterStep(length: int, calls: nat)
    requires length > 0
    ensures CounterAfter(length, calls) < length ==>
              calls % length == CounterAfter(length, calls) &&
              CounterAfter(length, calls + 1) == CounterAfter(length, calls) + 1
    ensures CounterAfter(length, calls) >= length ==>
              calls % length == 0 && CounterAfter(length, calls + 1) == 1
  {
    if calls == 0 {
      ModUnique(0, length, 0, 0);
    } else {
      var q, r := (calls - 1) / length, (calls - 1) % length;
      if r + 1 < length {
        ModUnique(calls, length, q, r + 1);
      } else {
        ModUnique(calls, length, q + 1, 0);
      }
    }
  }

  /** Taking the first value off a non-empty range leaves the rest of the range. */
  lemma RangeTail(lo: int, hi: int)
    requires lo < hi
    ensures Range(lo, hi)[0] == lo && Range(lo, hi)[1..] == Range(lo + 1, hi)
  {
  }

  class LabelGenerator {
    var currentLabelIndex: int
    const start: int
    const length: int
    /** The values the numpy iterator has still to hand out. */
    var labelGenerator: seq<int>
    /** Number of `GetNextLabel` calls so far. */
    ghost var calls: nat

    ghost predicate Valid()
      reads this
    {
      length > 0 &&
      currentLabelIndex == CounterAfter(length, calls) &&
      labelGenerator == Range(start + currentLabelIndex, start + length)
    }

    /** `np.nditer` refuses the empty range of a length below 1 with ValueError, so a
        generator exists only for a positive length; callers raise that error themselves. */
    constructor (start: int, length: int)
      requires length > 0
      ensures Valid()
      ensures this.start == start && this.length == length
      ensures calls == 0 && currentLabelIndex == 0
    {
      this.currentLabelIndex := 0;
      this.start := start;
      this.length := length;
      this.labelGenerator := Range(start, start + length);
      this.calls := 0;
    }

    /** While the counter is below `length`, advance it and the iterator; otherwise
        re-create the iterator, set the counter to 1 and hand out its first value. The
        range is never empty, so `next` never raises. */
    method GetNextLabel() returns (nextLabel: string)
      requires Valid()
      modifies this
      ensures Valid() && calls == old(calls) + 1
      ensures nextLabel == NthLabel(start, length, old(calls))
      ensures 1 <= currentLabelIndex <= length
    {
      CounterStep(length, calls);
      if currentLabelIndex < length {
        RangeTail(start + currentLabelIndex, start + length);
        currentLabelIndex := currentLabelIndex + 1;
        nextLabel := IntToString(labelGenerator[0]);
        labelGenerator := labelGenerator[1..];
      } else {
        labelGenerator := Range(start, start + length);
        currentLabelIndex := 1;
        RangeTail(start, start + length);
        nextLabel := IntToString(labelGenerator[0]);
        labelGenerator := labelGenerator[1..];
      }
      calls := calls + 1;
    }
  }
}
