/** The odometer that enumerates a grid of parameter vectors: a mixed-radix
    counter whose digits are real values stepping from `start` to `end`,
    the last dimension varying fastest. */
module Odometer {

  /** One dimension of the search grid. */
  datatype Range = Range(start: real, end: real, step: real)

  /** The source never validates its ranges; the model asks for positive
      steps and non-empty intervals, which makes the traversal terminate. */
  predicate WellFormed(ranges: seq<Range>)
  {
    forall k :: 0 <= k < |ranges| ==> ranges[k].step > 0.0 && ranges[k].start <= ranges[k].end
  }

  /** A parameter vector with one value per range, each within its interval. */
  predicate InRange(ranges: seq<Range>, v: seq<real>)
  {
    |v| == |ranges| && forall k :: 0 <= k < |v| ==> ranges[k].start <= v[k] <= ranges[k].end
  }

  /** A dimension can still be incremented while it lies more than half a
      step below its end (the tolerance that absorbs floating-point drift). */
  predicate HasRoom(r: Range, x: real)
  {
    x < r.end - r.step / 2.0
  }

  /** One increment of a dimension, clamped to its end. */
  function Bump(r: Range, x: real): real
  {
    if x + r.step > r.end then r.end else x + r.step
  }

  /** The vector holding every dimension's start. */
  function Starts(ranges: seq<Range>): (v: seq<real>)
    ensures |v| == |ranges|
  {
    seq(|ranges|, k requires 0 <= k < |ranges| => ranges[k].start)
  }

  /** `i` is the dimension the odometer increments: the last one with room. */
  predicate Pivot(ranges: seq<Range>, v: seq<real>, i: int)
    requires |v| == |ranges|
  {
    0 <= i < |v| && HasRoom(ranges[i], v[i]) &&
    forall k :: i < k < |v| ==> !HasRoom(ranges[k], v[k])
  }

  /** The successor of a vector and whether the counter wrapped around. */
  datatype Advanced = Advanced(next: seq<real>, wrapped: bool)

  /** Reference definition of the odometer step, by recursion on the last
      dimension: increment it if it has room, otherwise reset it and carry. */
  function Advance(ranges: seq<Range>, v: seq<real>): (a: Advanced)
    requires |v| == |ranges|
    ensures |a.next| == |v|
    decreases |v|
  {
    if |v| == 0 then Advanced([], true)
    else
      var i := |v| - 1;
      if HasRoom(ranges[i], v[i]) then Advanced(v[..i] + [Bump(ranges[i], v[i])], false)
      else
        var p := Advance(ranges[..i], v[..i]);
        Advanced(p.next + [ranges[i].start], p.wrapped)
  }

  /** With a pivot `i`, the step increments `i` (clamped to its end), resets
      every later dimension to its start and keeps every earlier one; the
      pivot is the only index with that role, and the counter does not wrap. */
  lemma {:induction false} AdvanceAtPivot(ranges: seq<Range>, v: seq<real>, i: int)
    requires |v| == |ranges| && Pivot(ranges, v, i)
    ensures Advance(ranges, v) == Advanced(v[..i] + [Bump(ranges[i], v[i])] + Starts(ranges)[i + 1..], false)
    ensures Advance(ranges, v).next[i] <= ranges[i].end
    ensures forall j :: Pivot(ranges, v, j) ==> j == i
    decreases |v|
  {
    var n := |v| - 1;
    if i < n {
      assert !HasRoom(ranges[n], v[n]);
      var pr, pv := ranges[..n], v[..n];
      assert Pivot(pr, pv, i);
      AdvanceAtPivot(pr, pv, i);
      assert pv[..i] == v[..i];
      assert Starts(pr)[i + 1..] + [ranges[n].start] == Starts(ranges)[i + 1..];
    } else {
      assert Starts(ranges)[i + 1..] == [];
    }
  }

  /** Without a pivot, every dimension carries: all are reset to their
      starts and the counter wraps. */
  lemma {:induction false} AdvanceWithoutPivot(ranges: seq<Range>, v: seq<real>)
    requires |v| == |ranges|
    requires forall k :: 0 <= k < |v| ==> !HasRoom(ranges[k], v[k])
    ensures Advance(ranges, v) == Advanced(Starts(ranges), true)
    decreases |v|
  {
    if |v| > 0 {
      var n := |v| - 1;
      AdvanceWithoutPivot(ranges[..n], v[..n]);
      assert Starts(ranges[..n]) + [ranges[n].start] == Starts(ranges);
    }
  }

  /** The counter wraps exactly when every dimension is at or past its end
      minus half a step. */
  lemma {:induction false} WrapsIffNoRoom(ranges: seq<Range>, v: seq<real>)
    requires |v| == |ranges|
    ensures Advance(ranges, v).wrapped <==> forall k :: 0 <= k < |v| ==> !HasRoom(ranges[k], v[k])
    decreases |v|
  {
    if |v| > 0 {
      var n := |v| - 1;
      WrapsIffNoRoom(ranges[..n], v[..n]);
      if !HasRoom(ranges[n], v[n]) {
        assert forall k :: 0 <= k < n ==> v[..n][k] == v[k] && ranges[..n][k] == ranges[k];
      }
    }
  }

  /** A step that does not wrap has a pivot: the last dimension with room.
      With AdvanceAtPivot, a non-wrapping step changes the vector at exactly
      one such index. */
  lemma {:induction false} PivotExists(ranges: seq<Range>, v: seq<real>)
    requires |v| == |ranges| && !Advance(ranges, v).wrapped
    ensures exists i :: Pivot(ranges, v, i)
    decreases |v|
  {
    var n := |v| - 1;
    if HasRoom(ranges[n], v[n]) {
      assert Pivot(ranges, v, n);
    } else {
      var pr, pv := ranges[..n], v[..n];
      PivotExists(pr, pv);
      var i :| Pivot(pr, pv, i);
      forall k | i < k < |v| ensures !HasRoom(ranges[k], v[k]) {
        if k < n { assert pr[k] == ranges[k] && pv[k] == v[k]; }
      }
      assert Pivot(ranges, v, i);
    }
  }

  /** The odometer step in place: scan dimensions from the last backwards;
      increment the first one with room and stop, otherwise reset and carry.
      Returns true when every dimension wrapped back to its start. */
  method Update(ranges: seq<Range>, values: array<real>) returns (wrapped: bool)
    requires |ranges| == values.Length
    modifies values
    ensures values[..] == Advance(ranges, old(values[..])).next
    ensures wrapped == Advance(ranges, old(values[..])).wrapped
  {
    ghost var v := values[..];
    var i := values.Length;
    while i > 0
      invariant 0 <= i <= values.Length
      invariant values[..i] == v[..i]
      invariant forall k :: i <= k < values.Length ==> values[k] == ranges[k].start && !HasRoom(ranges[k], v[k])
    {
      i := i - 1;
      var r := ranges[i];
      if values[i] < r.end - r.step / 2.0 {
        values[i] := values[i] + r.step;
        if values[i] > r.end {
          values[i] := r.end;
        }
        AdvanceAtPivot(ranges, v, i);
        assert values[..] == v[..i] + [Bump(r, v[i])] + Starts(ranges)[i + 1..];
        return false;
      }
      values[i] := r.start;
      assert values[..i] == v[..i];
    }
    AdvanceWithoutPivot(ranges, v);
    assert values[..] == Starts(ranges);
    return true;
  }

  /** The odometer keeps a vector inside its ranges. */
  lemma {:induction false} AdvanceStaysInRange(ranges: seq<Range>, v: seq<real>)
    requires WellFormed(ranges) && InRange(ranges, v)
    ensures InRange(ranges, Advance(ranges, v).next)
    decreases |v|
  {
    if |v| > 0 {
      var n := |v| - 1;
      if !HasRoom(ranges[n], v[n]) {
        AdvanceStaysInRange(ranges[..n], v[..n]);
      }
    }
  }

  // ----- Termination of the traversal -----

  /** Twice the number of steps left in a dimension, rounded down. */
  function Digit(r: Range, x: real): int
    requires r.step > 0.0
  {
    ((2.0 * (r.end - x)) / r.step).Floor
  }

  lemma DigitBounds(r: Range, x: real)
    requires r.step > 0.0 && r.start <= x <= r.end
    ensures 0 <= Digit(r, x) <= Digit(r, r.start)
  {
    var a, b := 2.0 * (r.end - x), 2.0 * (r.end - r.start);
    assert a / r.step <= b / r.step by {
      assert a <= b;
      DivMonotone(a, b, r.step);
    }
    assert 0.0 <= a / r.step by {
      DivMonotone(0.0, a, r.step);
    }
  }

  lemma DivMonotone(a: real, b: real, s: real)
    requires s > 0.0 && a <= b
    ensures a / s <= b / s
  {
    assert (b - a) / s >= 0.0;
    assert b / s - a / s == (b - a) / s;
  }

  /** Incrementing a dimension with room lowers its digit. */
  lemma BumpLowersDigit(r: Range, x: real)
    requires r.step > 0.0 && HasRoom(r, x)
    ensures Digit(r, Bump(r, x)) < Digit(r, x)
  {
    var a := 2.0 * (r.end - x);
    assert a / r.step > 1.0 by {
      assert (a - r.step) / r.step > 0.0;
      assert (a - r.step) / r.step == a / r.step - r.step / r.step;
    }
    if x + r.step > r.end {
      assert Digit(r, Bump(r, x)) == 0;
    } else {
      var b := 2.0 * (r.end - (x + r.step));
      assert b == a - 2.0 * r.step;
      assert b / r.step == a / r.step - 2.0 by {
        assert (a - 2.0 * r.step) / r.step == a / r.step - (2.0 * r.step) / r.step;
      }
    }
  }

  /** The vector read as a mixed-radix number: digit k counts down from
      Digit(range, start) to 0 as dimension k advances. */
  function Measure(ranges: seq<Range>, v: seq<real>): nat
    requires WellFormed(ranges) && InRange(ranges, v)
    decreases |v|
  {
    if |v| == 0 then 0
    else
      var n := |v| - 1;
      PrefixInRange(ranges, v, n);
      DigitBounds(ranges[n], v[n]);
      DigitBounds(ranges[n], ranges[n].start);
      var high := Measure(ranges[..n], v[..n]);
      var radix := Digit(ranges[n], ranges[n].start) + 1;
      NatProduct(high, radix);
      high * radix + Digit(ranges[n], v[n])
  }

  lemma PrefixInRange(ranges: seq<Range>, v: seq<real>, n: nat)
    requires WellFormed(ranges) && InRange(ranges, v) && n <= |v|
    ensures WellFormed(ranges[..n]) && InRange(ranges[..n], v[..n])
  {
  }

  lemma NatProduct(a: nat, b: nat)
    ensures a * b >= 0
  {
  }

  /** Every step that does not wrap lowers the measure, so the traversal ends. */
  lemma {:induction false} AdvanceDecreases(ranges: seq<Range>, v: seq<real>)
    requires WellFormed(ranges) && InRange(ranges, v)
    requires !Advance(ranges, v).wrapped
    ensures InRange(ranges, Advance(ranges, v).next)
    ensures Measure(ranges, Advance(ranges, v).next) < Measure(ranges, v)
    decreases |v|
  {
    AdvanceStaysInRange(ranges, v);
    var n := |v| - 1;
    var w := Advance(ranges, v).next;
    var r := ranges[n];
    var pr, pv := ranges[..n], v[..n];
    DigitBounds(r, v[n]);
    DigitBounds(r, w[n]);
    DigitBounds(r, r.start);
    var c := Digit(r, r.start) + 1;
    assert InRange(pr, pv);
    assert InRange(pr, w[..n]);
    var m, m' := Measure(pr, pv), Measure(pr, w[..n]);
    assert Measure(ranges, v) == m * c + Digit(r, v[n]);
    assert Measure(ranges, w) == m' * c + Digit(r, w[n]);
    if HasRoom(r, v[n]) {
      assert w[..n] == pv;
      BumpLowersDigit(r, v[n]);
    } else {
      assert w[..n] == Advance(pr, pv).next;
      AdvanceDecreases(pr, pv);
      MulStep(m', m, c);
    }
  }

  lemma MulStep(a: int, b: int, c: int)
    requires a < b && c >= 0
    ensures a * c + c <= b * c
  {
    var d := b - a - 1;
    assert d * c >= 0;
    assert b * c == (a + 1 + d) * c == a * c + c + d * c;
  }

  // ----- The traversal -----

  /** The vectors the odometer visits from `v` on, ending with the one whose
      successor wraps. */
  ghost function Traversal(ranges: seq<Range>, v: seq<real>): (t: seq<seq<real>>)
    requires WellFormed(ranges) && InRange(ranges, v)
    ensures |t| > 0 && t[0] == v
    decreases Measure(ranges, v)
  {
    if Advance(ranges, v).wrapped then [v]
    else
      AdvanceDecreases(ranges, v);
      [v] + Traversal(ranges, Advance(ranges, v).next)
  }

  /** Every vector of the search grid, in the order the search visits them. */
  ghost function Grid(ranges: seq<Range>): (g: seq<seq<real>>)
    requires WellFormed(ranges)
    ensures |g| > 0 && g[0] == Starts(ranges)
  {
    Traversal(ranges, Starts(ranges))
  }

  /** The traversal visits vectors inside the ranges, each the odometer
      successor of the one before without wrapping, and stops at the first
      vector whose successor wraps. */
  lemma {:induction false} TraversalShape(ranges: seq<Range>, v: seq<real>)
    requires WellFormed(ranges) && InRange(ranges, v)
    ensures var t := Traversal(ranges, v);
      (forall k :: 0 <= k < |t| ==> InRange(ranges, t[k])) &&
      (forall k :: 0 <= k < |t| - 1 ==> !Advance(ranges, t[k]).wrapped && t[k + 1] == Advance(ranges, t[k]).next) &&
      Advance(ranges, t[|t| - 1]).wrapped
    decreases Measure(ranges, v)
  {
    var t := Traversal(ranges, v);
    var a := Advance(ranges, v);
    if !a.wrapped {
      AdvanceDecreases(ranges, v);
      var u := Traversal(ranges, a.next);
      TraversalShape(ranges, a.next);
      assert t == [v] + u;
      forall k | 0 <= k < |t| ensures InRange(ranges, t[k]) {
        if k > 0 { assert t[k] == u[k - 1]; }
      }
      forall k | 0 <= k < |t| - 1
        ensures !Advance(ranges, t[k]).wrapped && t[k + 1] == Advance(ranges, t[k]).next
      {
        if k > 0 { assert t[k] == u[k - 1] && t[k + 1] == u[k]; }
      }
      assert t[|t| - 1] == u[|u| - 1];
    }
  }

  /** The grid is the orbit of the odometer from the all-starts vector:
      each vector but the last advances to the next one without wrapping,
      and the last is the only one whose advance wraps. */
  lemma GridStep(ranges: seq<Range>, n: nat)
    requires WellFormed(ranges) && n < |Grid(ranges)|
    ensures InRange(ranges, Grid(ranges)[n])
    ensures var g := Grid(ranges); var a := Advance(ranges, g[n]);
      (a.wrapped <==> n == |g| - 1) && (!a.wrapped ==> g[n + 1] == a.next)
  {
    TraversalShape(ranges, Starts(ranges));
  }

  /** The last vector of the grid has every dimension within half a step
      of its end (not necessarily at it). */
  lemma LastVectorNearEnd(ranges: seq<Range>)
    requires WellFormed(ranges)
    ensures var g := Grid(ranges); var last := g[|g| - 1];
      |last| == |ranges| &&
      forall k :: 0 <= k < |ranges| ==> ranges[k].end - ranges[k].step / 2.0 <= last[k] <= ranges[k].end
  {
    var g := Grid(ranges);
    TraversalShape(ranges, Starts(ranges));
    WrapsIffNoRoom(ranges, g[|g| - 1]);
  }

  /** The single range 0 to 1 by 0.3, whose length is not a multiple of its step. */
  const THIRDS := [Range(0.0, 1.0, 0.3)]

  /** On THIRDS the odometer goes from 0.6 to 0.9 and then wraps. */
  lemma EndSkipped()
    ensures Advance(THIRDS, [0.6]) == Advanced([0.9], false)
    ensures Advance(THIRDS, [0.9]) == Advanced([0.0], true)
  {
    assert [0.6][..0] == [];
    assert THIRDS[..0] == [];
  }

  /** The whole grid for 0 to 1 by 0.3: the end value 1 is never visited. */
  lemma EndNeverVisited()
    ensures Grid(THIRDS) == [[0.0], [0.3], [0.6], [0.9]]
  {
    ThirdsEnd();
    var t6 := ThirdsStep(0.6);
    assert t6 == [[0.6], [0.9]];
    var t3 := ThirdsStep(0.3);
    assert t3 == [[0.3], [0.6], [0.9]];
    var t0 := ThirdsStep(0.0);
    assert t0 == [[0.0], [0.3], [0.6], [0.9]];
    assert Starts(THIRDS) == [0.0];
  }

  /** From a value with room, the traversal visits it and moves on by one step. */
  lemma ThirdsStep(x: real) returns (t: seq<seq<real>>)
    requires 0.0 <= x && x + 0.3 <= 1.0
    ensures WellFormed(THIRDS) && InRange(THIRDS, [x]) && InRange(THIRDS, [x + 0.3])
    ensures t == Traversal(THIRDS, [x]) && t == [[x]] + Traversal(THIRDS, [x + 0.3])
  {
    assert [x][..0] == [];
    t := Traversal(THIRDS, [x]);
  }

  /** From 0.9 the step wraps, so the traversal ends there. */
  lemma ThirdsEnd()
    ensures WellFormed(THIRDS) && InRange(THIRDS, [0.9]) && Traversal(THIRDS, [0.9]) == [[0.9]]
  {
    WrapsIffNoRoom(THIRDS, [0.9]);
  }
}
