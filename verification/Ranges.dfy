/** Integer ranges: iteration, membership, containment, reversal and slicing. */
module Ranges {
  import opened Wrappers

  const MAX_RANGE_ELEMENTS := 1000000
  const MAX_SLICE_SIZE := 1000000

  type Positive = n: int | n >= 1 witness 1

  datatype Range = Range(start: int, end: int, step: Positive, inclusive: bool) {
    predicate Increasing() {
      start <= end
    }

    /** How far x lies from start, in the range's own direction. */
    function Along(x: int): int {
      if Increasing() then x - start else start - x
    }

    function After(x: int): (y: int)
      ensures Along(y) == Along(x) + step
    {
      if Increasing() then x + step else x - step
    }

    predicate Within(x: int) {
      if inclusive then Along(x) <= Along(end) else Along(x) < Along(end)
    }
  }

  /** What hasNext/next produce from cur on. */
  function Remaining(r: Range, cur: int): seq<int>
    decreases r.Along(r.end) - r.Along(cur) + 1
  {
    if r.Within(cur) then [cur] + Remaining(r, r.After(cur)) else []
  }

  /** What a fresh range produces. */
  function Elements(r: Range): seq<int> {
    Remaining(r, r.start)
  }

  predicate Empty(r: Range) {
    r.start == r.end && !r.inclusive
  }

  // ---------- what is produced ----------

  lemma Modulus(a: int, m: Positive)
    ensures (a - m) % m == a % m
    ensures 0 < a < m ==> a % m != 0
  {
    var q := a / m;
    assert a == m * q + a % m;
    assert m * (q - 1) == m * q - m;
    var b, p := a - m, (a - m) / m;
    assert b == m * p + b % m;
    var d := q - 1 - p;
    assert m * d == m * (q - 1) - m * p;
    assert m * d == b % m - a % m;
    if d >= 1 {
      MultipleGrows(m, d);
    } else if d <= -1 {
      assert m * -d == -(m * d);
      MultipleGrows(m, -d);
    }
  }

  lemma MultipleGrows(m: Positive, d: int)
    requires d >= 1
    ensures m * d >= m
  {
    assert m * (d - 1) >= 0;
  }

  /** Exactly the numbers a whole number of steps ahead and not past the end. */
  lemma {:induction false} RemainingHolds(r: Range, cur: int, x: int)
    ensures x in Remaining(r, cur)
            <==> r.Along(cur) <= r.Along(x) && r.Within(x) && (r.Along(x) - r.Along(cur)) % r.step == 0
    decreases r.Along(r.end) - r.Along(cur) + 1
  {
    if r.Within(cur) {
      RemainingHolds(r, r.After(cur), x);
      Modulus(r.Along(x) - r.Along(cur), r.step);
      assert r.Along(x) == r.Along(cur) <==> x == cur;
    }
  }

  /** In order, one step apart. */
  lemma {:induction false} RemainingAt(r: Range, cur: int, k: nat)
    requires k < |Remaining(r, cur)|
    ensures r.Along(Remaining(r, cur)[k]) == r.Along(cur) + r.step * k
    ensures r.Within(Remaining(r, cur)[k])
    decreases k
  {
    if k > 0 {
      RemainingAt(r, r.After(cur), k - 1);
      assert r.step * k == r.step * (k - 1) + r.step;
    } else {
      assert r.step * k == 0;
    }
  }

  lemma FirstIsStart(r: Range)
    ensures Empty(r) <==> Elements(r) == []
    ensures !Empty(r) ==> Elements(r)[0] == r.start
  {
  }

  lemma StepsFit(r: Range, cur: int, n: nat)
    requires r.inclusive && r.Along(r.end) == r.Along(cur) + r.step * n
    ensures |Remaining(r, cur)| == n + 1
    decreases n
  {
    if n > 0 {
      assert r.step * n == r.step * (n - 1) + r.step;
      assert r.step * (n - 1) >= 0;
      StepsFit(r, r.After(cur), n - 1);
    } else {
      assert r.step * n == 0;
    }
  }

  // ---------- reversal ----------

  function Reverse(r: Range): Range {
    Range(r.end, r.start, r.step, r.inclusive)
  }

  ghost predicate Mirrors(a: seq<int>, b: seq<int>) {
    |a| == |b| && forall k: nat | k < |a| :: a[k] == b[|b| - 1 - k]
  }

  /** reverse yields the same numbers backwards exactly when the last one is the end itself; otherwise it starts at
      a number the range never produces. */
  lemma ReverseMirrorsExactly(r: Range)
    ensures Mirrors(Elements(Reverse(r)), Elements(r))
            <==> r.start == r.end || (r.inclusive && r.Along(r.end) % r.step == 0)
  {
    var back := Reverse(r);
    FirstIsStart(r);
    FirstIsStart(back);
    if r.start == r.end {
      if r.inclusive {
        StepsFit(r, r.start, 0);
        StepsFit(back, back.start, 0);
      }
    } else if r.inclusive && r.Along(r.end) % r.step == 0 {
      var n := r.Along(r.end) / r.step;
      assert r.Along(r.end) == r.step * n;
      if n < 0 {
        assert r.step * -n == -(r.step * n);
        MultipleGrows(r.step, -n);
        assert false;
      }
      StepsFit(r, r.start, n);
      StepsFit(back, back.start, n);
      forall k: nat | k < n + 1 ensures Elements(back)[k] == Elements(r)[n - k] {
        RemainingAt(back, back.start, k);
        RemainingAt(r, r.start, n - k);
        assert r.step * (n - k) == r.step * n - r.step * k;
      }
    } else {
      RemainingHolds(r, r.start, r.end);
      assert Elements(back)[0] == r.end;
      assert r.end !in Elements(r);
    }
  }

  /** Zero up to three holds 0, 1 and 2; its reverse holds 3, 2 and 1. */
  lemma ReverseMisses()
    ensures var r := Range(0, 3, 1, false);
            Elements(r) == [0, 1, 2] && Elements(Reverse(r)) == [3, 2, 1] && !Mirrors(Elements(Reverse(r)), Elements(r))
  {
    var r := Range(0, 3, 1, false);
    ReverseMirrorsExactly(r);
    assert Remaining(r, 2) == [2] && Remaining(r, 1) == [1, 2];
    assert Remaining(Reverse(r), 1) == [1] && Remaining(Reverse(r), 2) == [2, 1];
  }

  // ---------- membership ----------

  /** includes(x), written as the code tests it. */
  predicate IncludesNumber(r: Range, x: int) {
    r.Along(x) >= 0 && r.Within(x) && (if x < r.start then r.start - x else x - r.start) % r.step == 0
  }

  lemma IncludesIsProduced(r: Range, x: int)
    ensures IncludesNumber(r, x) <==> x in Elements(r)
  {
    RemainingHolds(r, r.start, x);
  }

  ghost predicate AllIn(xs: seq<int>, r: Range) {
    forall x <- xs :: x in Elements(r)
  }

  /** The answer of includes(other). */
  ghost predicate Contains(r: Range, other: Range) {
    if Empty(other) then other.start in Elements(r) else AllIn(Elements(other), r)
  }

  /** includes(other) says whether every element of other is in r, except that an empty other is refused unless its
      start happens to be in r. */
  lemma ContainsExactly(r: Range, other: Range)
    ensures (Contains(r, other) <==> AllIn(Elements(other), r)) <==> (!Empty(other) || IncludesNumber(r, other.start))
  {
    FirstIsStart(other);
    IncludesIsProduced(r, other.start);
  }

  /** Three up to three is empty, so all of it is in the range from zero to three, and it is refused. */
  lemma EmptyIsRefused()
    ensures var r, other := Range(0, 3, 1, false), Range(3, 3, 1, false);
            Elements(other) == [] && AllIn(Elements(other), r) && !Contains(r, other)
  {
    ContainsExactly(Range(0, 3, 1, false), Range(3, 3, 1, false));
  }

  method IncludesRange(r: Range, other: Range) returns (b: bool)
    ensures b <==> Contains(r, other)
  {
    var current := other.start;
    FirstIsStart(other);
    assert Elements(other) == Remaining(other, other.start);
    while true
      invariant other.Along(current) >= 0
      invariant Empty(other) ==> current == other.start
      invariant !Empty(other) ==> other.Within(current)
      invariant !Empty(other) ==> (AllIn(Elements(other), r) <==> AllIn(Remaining(other, current), r))
      decreases other.Along(other.end) - other.Along(current)
    {
      IncludesIsProduced(r, current);
      if !(r.Along(current) >= 0 && r.Within(current)) {
        return false;
      }
      var offset := if current < r.start then r.start - current else current - r.start;
      if offset % r.step != 0 {
        return false;
      }
      var after := other.After(current);
      if other.inclusive {
        if current == other.end { return true; }
        if other.Along(after) > other.Along(other.end) { return true; }
      } else {
        if other.Along(after) >= other.Along(other.end) { return true; }
      }
      assert Remaining(other, current) == [current] + Remaining(other, after);
      current := after;
    }
  }

  // ---------- slicing ----------

  function Pick<T>(arr: seq<T>, indices: seq<int>): (picked: seq<T>)
    ensures |picked| <= |indices|
  {
    if indices == [] then []
    else (if 0 <= indices[0] < |arr| then [arr[indices[0]]] else []) + Pick(arr, indices[1..])
  }

  lemma PickFirst<T>(arr: seq<T>, indices: seq<int>)
    requires indices != []
    ensures Pick(arr, indices) == Pick(arr, [indices[0]]) + Pick(arr, indices[1..])
  {
    assert [indices[0]][1..] == [];
  }

  lemma Regroup<T>(a: seq<T>, b: seq<T>, c: seq<T>, d: seq<T>)
    ensures a + (b + c + d) == a + b + c + d
  {
  }

  /** An index in bounds picks its element, any other nothing, and in the order of the indices. */
  lemma {:induction false} PickInOrder<T>(arr: seq<T>, before: seq<int>, index: int, after: seq<int>)
    ensures Pick(arr, before + [index] + after)
         == Pick(arr, before) + (if 0 <= index < |arr| then [arr[index]] else []) + Pick(arr, after)
  {
    var all := before + [index] + after;
    if before == [] {
      assert all == [index] + after && all[1..] == after;
      assert Pick<T>(arr, []) == [];
    } else {
      PickInOrder(arr, before[1..], index, after);
      assert all[0] == before[0] && all[1..] == before[1..] + [index] + after;
      PickFirst(arr, all);
      PickFirst(arr, before);
      hide Pick;
      Regroup(Pick(arr, [before[0]]), Pick(arr, before[1..]), if 0 <= index < |arr| then [arr[index]] else [],
              Pick(arr, after));
    }
  }

  /** A slice that stays in bounds has the elements that many steps apart. */
  lemma PicksSteps<T>(arr: seq<T>, r: Range, cur: int)
    requires forall k | 0 <= k < |Remaining(r, cur)| :: 0 <= Remaining(r, cur)[k] < |arr|
    ensures var picked := Pick(arr, Remaining(r, cur));
            && |picked| == |Remaining(r, cur)|
            && forall k: nat | k < |picked| ::
                 var at := cur + (if r.Increasing() then r.step * k else -(r.step * k));
                 0 <= at < |arr| && picked[k] == arr[at]
  {
    var indices := Remaining(r, cur);
    PicksAll(arr, indices);
    var picked := Pick(arr, indices);
    forall k: nat | k < |picked|
      ensures var at := cur + (if r.Increasing() then r.step * k else -(r.step * k));
              0 <= at < |arr| && picked[k] == arr[at]
    {
      RemainingAt(r, cur, k);
    }
  }

  lemma {:induction false} PicksAll<T>(arr: seq<T>, indices: seq<int>)
    requires forall k | 0 <= k < |indices| :: 0 <= indices[k] < |arr|
    ensures |Pick(arr, indices)| == |indices|
    ensures forall k | 0 <= k < |indices| :: Pick(arr, indices)[k] == arr[indices[k]]
  {
    if indices != [] {
      PicksAll(arr, indices[1..]);
    }
  }

  /** The elements at the produced indices that are in bounds; refused when more would follow the millionth. */
  function SliceOf<T>(arr: seq<T>, r: Range, cur: int): Result<seq<T>> {
    var indices := Remaining(r, cur);
    var picked := Pick(arr, indices);
    if |picked| < MAX_SLICE_SIZE || (|picked| == MAX_SLICE_SIZE && 0 <= indices[|indices| - 1] < |arr|) then Ok(picked)
    else Err("RangeError")
  }

  /** Past the end of the array an increasing range finds nothing more: the early break loses nothing. */
  lemma {:induction false} NothingBeyond<T>(arr: seq<T>, r: Range, cur: int)
    requires r.Increasing() && cur >= |arr|
    ensures Pick(arr, Remaining(r, cur)) == []
    decreases r.Along(r.end) - r.Along(cur) + 1
  {
    if r.Within(cur) {
      NothingBeyond(arr, r, r.After(cur));
      assert Remaining(r, cur)[1..] == Remaining(r, r.After(cur));
    }
  }

  lemma {:induction false} LastIsPicked<T>(arr: seq<T>, indices: seq<int>)
    requires indices != [] && 0 <= indices[|indices| - 1] < |arr|
    ensures Pick(arr, indices) != []
  {
    if |indices| > 1 {
      LastIsPicked(arr, indices[1..]);
    }
  }

  /** Where the slicing loop stands: the indices done, those to come, and what has been picked. */
  ghost predicate Sliced<T>(arr: seq<T>, all: seq<int>, done: seq<int>, rest: seq<int>, result: seq<T>) {
    && done + rest == all
    && result + Pick(arr, rest) == Pick(arr, all)
    && (|result| == MAX_SLICE_SIZE ==> done != [] && 0 <= done[|done| - 1] < |arr|)
  }

  lemma SlicedOneMore<T>(arr: seq<T>, all: seq<int>, done: seq<int>, index: int, rest: seq<int>, result: seq<T>)
    requires Sliced(arr, all, done, [index] + rest, result) && |result| < MAX_SLICE_SIZE
    ensures Sliced(arr, all, done + [index], rest, result + if 0 <= index < |arr| then [arr[index]] else [])
  {
    var more := if 0 <= index < |arr| then [arr[index]] else [];
    assert ([index] + rest)[1..] == rest;
    assert Pick(arr, [index] + rest) == more + Pick(arr, rest);
    assert result + (more + Pick(arr, rest)) == (result + more) + Pick(arr, rest);
    assert done + ([index] + rest) == (done + [index]) + rest;
  }

  /** What the loop leaves, read as the answer. */
  lemma SlicedEnough<T>(arr: seq<T>, all: seq<int>, done: seq<int>, rest: seq<int>, result: seq<T>)
    requires Sliced(arr, all, done, rest, result) && |result| <= MAX_SLICE_SIZE
    requires |result| < MAX_SLICE_SIZE ==> Pick(arr, rest) == []
    ensures var picked := Pick(arr, all);
            (|picked| < MAX_SLICE_SIZE || (|picked| == MAX_SLICE_SIZE && 0 <= all[|all| - 1] < |arr|))
            <==> (|result| < MAX_SLICE_SIZE || rest == [])
    ensures |result| < MAX_SLICE_SIZE || rest == [] ==> result == Pick(arr, all)
  {
    if rest == [] {
      assert all == done && Pick(arr, rest) == [];
      assert result + [] == result;
    } else if |result| < MAX_SLICE_SIZE {
      assert result + [] == result;
    } else {
      assert all[|all| - 1] == rest[|rest| - 1];
      if 0 <= rest[|rest| - 1] < |arr| {
        LastIsPicked(arr, rest);
      }
    }
  }

  /** A range object; cur is where its iteration stands. */
  class RangeValue {
    var start: int
    var end: int
    var step: Positive
    var cur: int
    var inclusive: bool
    var increasing: bool

    ghost predicate Valid()
      reads this
    {
      increasing == (start <= end)
    }

    function Shape(): Range
      reads this
    {
      Range(start, end, step, inclusive)
    }

    constructor (s: int, e: int, st: nat, inc: bool)
      ensures Valid() && Shape() == Range(s, e, if st == 0 then 1 else st, inc)
      ensures Remaining(Shape(), cur) == Elements(Shape())
    {
      start, end, cur, inclusive := s, e, s, inc;
      step := if st == 0 then 1 else st;
      increasing := s <= e;
    }

    constructor Copy(r: RangeValue)
      requires r.Valid()
      ensures Valid() && Shape() == r.Shape() && cur == r.cur
    {
      start, end, step, cur, inclusive, increasing := r.start, r.end, r.step, r.cur, r.inclusive, r.increasing;
    }

    predicate HasNext()
      reads this
      requires Valid()
      ensures HasNext() <==> Remaining(Shape(), cur) != []
    {
      if increasing then
        if inclusive then cur <= end else cur < end
      else
        if inclusive then cur >= end else cur > end
    }

    method Next() returns (val: int)
      requires Valid()
      modifies this`cur
      ensures Valid() && val == old(cur) && cur == Shape().After(val)
      ensures old(HasNext()) ==> old(Remaining(Shape(), cur)) == [val] + Remaining(Shape(), cur)
    {
      val := cur;
      if increasing {
        cur := cur + step;
      } else {
        cur := cur - step;
      }
    }

    method ToArray() returns (res: Result<seq<int>>)
      requires Valid()
      ensures var all := Remaining(Shape(), cur);
              res == if |all| <= MAX_RANGE_ELEMENTS then Ok(all) else Err("RangeError")
    {
      var r := new RangeValue.Copy(this);
      ghost var all := Remaining(Shape(), cur);
      var elements := [];
      while r.HasNext() && |elements| < MAX_RANGE_ELEMENTS
        invariant r.Valid() && r.Shape() == Shape() && |elements| <= MAX_RANGE_ELEMENTS
        invariant elements + Remaining(r.Shape(), r.cur) == all
        decreases |Remaining(r.Shape(), r.cur)|
      {
        var before := elements;
        var val := r.Next();
        elements := elements + [val];
        assert before + ([val] + Remaining(r.Shape(), r.cur)) == elements + Remaining(r.Shape(), r.cur);
      }
      if |elements| >= MAX_RANGE_ELEMENTS && r.HasNext() {
        return Err("RangeError");
      }
      assert r.HasNext() || elements + Remaining(r.Shape(), r.cur) == elements;
      return Ok(elements);
    }

    /** arr[range]. */
    method Slice<T>(arr: seq<T>) returns (res: Result<seq<T>>)
      requires Valid()
      ensures res == SliceOf(arr, Shape(), cur)
    {
      var r := new RangeValue.Copy(this);
      ghost var done: seq<int> := [];
      var result := [];
      assert done + Remaining(Shape(), cur) == Remaining(Shape(), cur);
      hide Remaining, Pick;
      while r.HasNext() && |result| < MAX_SLICE_SIZE
        invariant r.Valid() && r.Shape() == Shape() && |result| <= MAX_SLICE_SIZE
        invariant Sliced(arr, Remaining(Shape(), cur), done, Remaining(r.Shape(), r.cur), result)
        decreases |Remaining(r.Shape(), r.cur)|
      {
        ghost var before := result;
        var index := r.Next();
        ghost var rest := Remaining(r.Shape(), r.cur);
        SlicedOneMore(arr, Remaining(Shape(), cur), done, index, rest, result);
        done := done + [index];
        if index < 0 {
          continue;
        }
        if index >= |arr| {
          if r.increasing {
            NothingBeyond(arr, r.Shape(), r.cur);
            break;
          }
          continue;
        }
        result := result + [arr[index]];
      }
      SlicedEnough(arr, Remaining(Shape(), cur), done, Remaining(r.Shape(), r.cur), result);
      if |result| >= MAX_SLICE_SIZE && r.HasNext() {
        return Err("RangeError");
      }
      return Ok(result);
    }
  }
}
