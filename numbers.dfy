/** Optional values: `undefined` in the source, or a thrown TypeError where the
    source crashes instead of returning. */
module Options {
  datatype Option<+T> = None | Some(value: T)
}

/** The arithmetic the position conversions rest on: JavaScript numbers that may
    be NaN, Math.abs, Math.round, and left-to-right sums of durations. */
module Numbers {

  /** A JavaScript number as far as this model needs one: a finite value, or a
      non-finite one (NaN or an infinity), which equals nothing. */
  datatype JsNumber = Finite(value: real) | NotFinite

  /** Math.abs */
  function Abs(x: real): (r: real)
    ensures r >= 0.0
    ensures r == x || r == -x
  {
    if x < 0.0 then -x else x
  }

  /** Math.round on a finite number: the nearest integer, halves rounded up. */
  function Round(x: real): (r: int)
    ensures x - 0.5 < r as real <= x + 0.5
  {
    (x + 0.5).Floor
  }

  /** Math.round on any JavaScript number: a non-finite number stays
      non-finite, a finite one becomes an integer within half a unit. */
  function RoundNumber(x: JsNumber): (r: JsNumber)
    ensures r.Finite? <==> x.Finite?
    ensures r.Finite? ==> r.value == r.value.Floor as real && x.value - 0.5 < r.value <= x.value + 0.5
  {
    match x
    case NotFinite => NotFinite
    case Finite(v) => Finite(Round(v) as real)
  }

  /** The sum of `ds`, added from the left as a running total or a `reduce` adds. */
  function Sum(ds: seq<real>): real
  {
    if ds == [] then 0.0 else Sum(ds[..|ds| - 1]) + ds[|ds| - 1]
  }

  /** The running sums of `ds`, one per element. */
  function RunningSums(ds: seq<real>): (r: seq<real>)
    ensures |r| == |ds|
  {
    if ds == [] then [] else RunningSums(ds[..|ds| - 1]) + [Sum(ds)]
  }

  /** Entry `i` of the running sums is the total of the first `i + 1` values. */
  lemma {:induction false} RunningSumsAt(ds: seq<real>, i: nat)
    requires i < |ds|
    ensures RunningSums(ds)[i] == Sum(ds[..i + 1])
  {
    var n := |ds|;
    if i == n - 1 {
      assert ds[..n] == ds;
    } else {
      RunningSumsAt(ds[..n - 1], i);
      assert ds[..n - 1][..i + 1] == ds[..i + 1];
    }
  }

  /** The running sums of a one-longer prefix extend those of the prefix by its sum. */
  lemma RunningSumsStep(ds: seq<real>, i: nat)
    requires i < |ds|
    ensures RunningSums(ds[..i + 1]) == RunningSums(ds[..i]) + [Sum(ds[..i]) + ds[i]]
  {
    assert ds[..i + 1][..i] == ds[..i];
  }

  predicate NonNegative(ds: seq<real>)
  {
    forall i :: 0 <= i < |ds| ==> ds[i] >= 0.0
  }

  /** Extending a prefix by one element adds that element to its sum. */
  lemma SumPrefixStep(ds: seq<real>, i: nat)
    requires i < |ds|
    ensures Sum(ds[..i + 1]) == Sum(ds[..i]) + ds[i]
  {
    assert ds[..i + 1][..i] == ds[..i];
  }

  /** With non-negative durations a longer prefix never has a smaller sum. */
  lemma {:induction false} SumPrefixMonotone(ds: seq<real>, i: nat, j: nat)
    requires NonNegative(ds)
    requires i <= j <= |ds|
    ensures Sum(ds[..i]) <= Sum(ds[..j])
  {
    if i < j {
      SumPrefixMonotone(ds, i, j - 1);
      SumPrefixStep(ds, j - 1);
    }
  }

  /** With non-negative durations a prefix sums to between 0 and the total. */
  lemma PrefixSumBounds(ds: seq<real>, k: nat)
    requires k <= |ds|
    ensures NonNegative(ds) ==> 0.0 <= Sum(ds[..k]) <= Sum(ds)
  {
    if NonNegative(ds) {
      assert ds[..0] == [] && ds[..|ds|] == ds;
      SumPrefixMonotone(ds, 0, k);
      SumPrefixMonotone(ds, k, |ds|);
    }
  }
}
