/**
 * `animateCounter`: a statistic counts up from 0 to its `data-target` in 50 steps, one
 * `setInterval` tick each, then shows the target itself and stops.
 */
module StatCounter {
  import opened JsMath

  /** The number of increments the count is split into. */
  const Steps := 50

  /** With a positive target, the running total reaches the target at the 50th tick and not before. */
  lemma ReachesAtLastStep(n: nat, target: int)
    requires target > 0
    ensures n as real * (target as real / Steps as real) >= target as real <==> n >= Steps
  {
    var inc := target as real / Steps as real;
    assert n as real * inc - target as real == (n - Steps) as real * inc;
    if n >= Steps {
      MulNonNegative((n - Steps) as real, inc);
    } else {
      MulNonNegative((Steps - n) as real, inc);
      assert (Steps - n) as real * inc > 0.0;
    }
  }

  /** A target of zero or less is reached by the first tick. */
  lemma FirstStepReaches(target: int)
    requires target <= 0
    ensures 1.0 * (target as real / Steps as real) >= target as real
  {
  }

  /** A larger running total never shows a smaller floor. */
  lemma FloorGrows(i: nat, j: nat, inc: real)
    requires i <= j && inc >= 0.0
    ensures Floor(i as real * inc) <= Floor(j as real * inc)
  {
    MulNonNegative((j - i) as real, inc);
    assert j as real * inc - i as real * inc == (j - i) as real * inc;
  }

  /** The values a count shows before its last tick: the floors of the running total, below the target. */
  ghost predicate Partial(shown: seq<int>, target: int)
  {
    forall i :: 0 <= i < |shown| ==>
      shown[i] == Floor((i + 1) as real * (target as real / Steps as real)) && shown[i] < target
  }

  /** A tick whose running total stays below the target shows its floor. */
  lemma PartialExtends(partial: seq<int>, target: int, current: real)
    requires Partial(partial, target)
    requires current == (|partial| + 1) as real * (target as real / Steps as real) && current < target as real
    ensures Partial(partial + [Floor(current)], target)
  {
  }

  /** Floors of a growing total followed by the target: bounded by the target and never going down. */
  lemma PartialThenTarget(shown: seq<int>, target: int)
    requires |shown| > 0 && shown[|shown| - 1] == target
    requires Partial(shown[..|shown| - 1], target) && (target > 0 || |shown| == 1)
    ensures forall i :: 0 <= i < |shown| ==> shown[i] <= target
    ensures forall i, j :: 0 <= i <= j < |shown| ==> shown[i] <= shown[j]
    ensures forall i :: 0 <= i < |shown| - 1 ==> shown[i] == Floor((i + 1) as real * (target as real / Steps as real))
  {
    forall i | 0 <= i < |shown|
      ensures shown[i] <= target
    {
      OrderedPair(shown, target, i, |shown| - 1);
    }
    forall i, j | 0 <= i <= j < |shown|
      ensures shown[i] <= shown[j]
    {
      OrderedPair(shown, target, i, j);
    }
    forall i | 0 <= i < |shown| - 1
      ensures shown[i] == Floor((i + 1) as real * (target as real / Steps as real))
    {
      assert shown[i] == shown[..|shown| - 1][i];
    }
  }

  /** One pair of the values of `PartialThenTarget`, the later one not smaller. */
  lemma OrderedPair(shown: seq<int>, target: int, i: nat, j: nat)
    requires |shown| > 0 && shown[|shown| - 1] == target
    requires Partial(shown[..|shown| - 1], target) && (target > 0 || |shown| == 1)
    requires i <= j < |shown|
    ensures shown[i] <= shown[j]
  {
    var prefix := shown[..|shown| - 1];
    if j < |shown| - 1 {
      PrefixOrdered(prefix, target, i, j);
      assert shown[i] == prefix[i] && shown[j] == prefix[j];
    } else if i < |shown| - 1 {
      assert shown[i] == prefix[i] && prefix[i] < target;
    }
  }

  lemma PrefixOrdered(prefix: seq<int>, target: int, i: nat, j: nat)
    requires Partial(prefix, target) && target > 0 && i <= j < |prefix|
    ensures prefix[i] <= prefix[j]
  {
    var inc := target as real / Steps as real;
    var a, b: nat := i + 1, j + 1;
    FloorGrows(a, b, inc);
    assert prefix[i] == Floor(a as real * inc) && prefix[j] == Floor(b as real * inc);
  }

  /**
   * The values the element shows, tick by tick. The count never passes the target, never goes
   * down, and ends on the target: after 50 ticks for a positive target, after one otherwise.
   * Every earlier tick shows the floor of the running total.
   */
  method AnimateCounter(target: int) returns (shown: seq<int>)
    ensures |shown| == if target > 0 then Steps else 1
    ensures shown[|shown| - 1] == target
    ensures forall i :: 0 <= i < |shown| ==> shown[i] <= target
    ensures forall i, j :: 0 <= i <= j < |shown| ==> shown[i] <= shown[j]
    ensures forall i :: 0 <= i < |shown| - 1 ==> shown[i] == Floor((i + 1) as real * (target as real / Steps as real))
  {
    var current := 0.0;
    var increment := target as real / Steps as real;
    var partial: seq<int> := [];
    shown := [];
    var done := false;
    while !done
      invariant !done ==> current == |partial| as real * increment
      invariant done ==> shown == partial + [target]
      invariant Partial(partial, target)
      invariant !done ==> (target > 0 && |partial| < Steps) || |partial| == 0
      invariant done ==> |partial| + 1 == (if target > 0 then Steps else 1)
      decreases (if done then 0 else 1) + Steps - |partial|
    {
      assert current + increment == (|partial| + 1) as real * increment;
      current := current + increment;
      if target > 0 {
        ReachesAtLastStep(|partial| + 1, target);
      } else {
        FirstStepReaches(target);
      }
      if current >= target as real {
        shown := partial + [target];
        done := true;
      } else {
        PartialExtends(partial, target, current);
        partial := partial + [Floor(current)];
      }
    }
    assert shown[..|shown| - 1] == partial;
    PartialThenTarget(shown, target);
  }
}
