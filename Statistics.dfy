/** Null-aware aggregate statistics over sequences of numbers
    (Statistic.java). Each statistic is a loop over the values with an
    accumulator, proved against a recursive specification function. */
module Statistics {
  import opened Wrappers

  /** A java.lang.Number: an integral box (Integer, Long) or a floating one
      (Double). Integers are unbounded and doubles are exact reals. */
  datatype Number = Integral(i: int) | Floating(d: real)

  /** Number.doubleValue(), which is also the value BigDecimal reads from
      Number.toString() in compare: exact in this model. */
  function DoubleValue(n: Number): real {
    match n
    case Integral(i) => i as real
    case Floating(d) => d
  }

  /** Number.longValue(): integral values are kept, a double is truncated
      toward zero (Java's narrowing conversion). */
  function LongValue(n: Number): (r: int)
    ensures n.Integral? ==> r == n.i
    ensures n.Floating? && n.d >= 0.0 ==> 0 <= r && r as real <= n.d < r as real + 1.0
    ensures n.Floating? && n.d < 0.0 ==> r <= 0 && r as real - 1.0 < n.d <= r as real
  {
    match n
    case Integral(i) => i
    case Floating(d) => if d >= 0.0 then d.Floor else -((-d).Floor)
  }

  /** Statistic.toInteger: null stays null. */
  function ToInteger(n: Option<Number>): (r: Option<int>)
    ensures r.None? <==> n.None?
    ensures n.Some? ==> r.value == LongValue(n.value)
  {
    match n
    case None => None
    case Some(x) => Some(LongValue(x))
  }

  /** Statistic.toDecimal: null stays null. */
  function ToDecimal(n: Option<Number>): (r: Option<real>)
    ensures r.None? <==> n.None?
    ensures n.Some? ==> r.value == DoubleValue(n.value)
  {
    match n
    case None => None
    case Some(x) => Some(DoubleValue(x))
  }

  // ---------------------------------------------------------------------
  // Specification functions

  /** The non-null elements, in order. */
  function NonNull<T>(s: seq<Option<T>>): seq<T> {
    if s == [] then []
    else
      var last := s[|s| - 1];
      NonNull(s[..|s| - 1]) + (if last.Some? then [last.value] else [])
  }

  /** The non-null elements as longs. */
  function Integers(s: seq<Option<Number>>): seq<int> {
    if s == [] then []
    else
      var last := s[|s| - 1];
      Integers(s[..|s| - 1]) + (if last.Some? then [LongValue(last.value)] else [])
  }

  /** The non-null elements as doubles. */
  function Decimals(s: seq<Option<Number>>): seq<real> {
    if s == [] then []
    else
      var last := s[|s| - 1];
      Decimals(s[..|s| - 1]) + (if last.Some? then [DoubleValue(last.value)] else [])
  }

  function Sum(xs: seq<int>): int {
    if xs == [] then 0 else Sum(xs[..|xs| - 1]) + xs[|xs| - 1]
  }

  function SumReals(xs: seq<real>): real {
    if xs == [] then 0.0 else SumReals(xs[..|xs| - 1]) + xs[|xs| - 1]
  }

  /** The sum of squared differences from a mean. */
  function SquaredDeviations(xs: seq<real>, mean: real): (r: real)
    ensures r >= 0.0
  {
    if xs == [] then 0.0
    else
      var d := xs[|xs| - 1] - mean;
      SquaredDeviations(xs[..|xs| - 1], mean) + d * d
  }

  lemma IntegersSnoc(values: seq<Option<Number>>, i: nat)
    requires i < |values|
    ensures Integers(values[..i + 1]) ==
      Integers(values[..i]) + (if values[i].Some? then [LongValue(values[i].value)] else [])
  {
    assert values[..i + 1][..i] == values[..i];
  }

  lemma DecimalsSnoc(values: seq<Option<Number>>, i: nat)
    requires i < |values|
    ensures Decimals(values[..i + 1]) ==
      Decimals(values[..i]) + (if values[i].Some? then [DoubleValue(values[i].value)] else [])
  {
    assert values[..i + 1][..i] == values[..i];
  }

  lemma SumSnoc(xs: seq<int>, tail: seq<int>)
    requires |tail| <= 1
    ensures Sum(xs + tail) == Sum(xs) + (if tail == [] then 0 else tail[0])
  {
    if tail != [] {
      assert (xs + tail)[..|xs|] == xs;
    } else {
      assert xs + tail == xs;
    }
  }

  lemma SumRealsSnoc(xs: seq<real>, tail: seq<real>)
    requires |tail| <= 1
    ensures SumReals(xs + tail) == SumReals(xs) + (if tail == [] then 0.0 else tail[0])
  {
    if tail != [] {
      assert (xs + tail)[..|xs|] == xs;
    } else {
      assert xs + tail == xs;
    }
  }

  lemma SquaredDeviationsSnoc(xs: seq<real>, tail: seq<real>, mean: real)
    requires |tail| <= 1
    ensures SquaredDeviations(xs + tail, mean) ==
      SquaredDeviations(xs, mean) + (if tail == [] then 0.0 else (tail[0] - mean) * (tail[0] - mean))
  {
    if tail != [] {
      var ys := xs + tail;
      assert ys[..|ys| - 1] == xs && ys[|ys| - 1] == tail[0];
    } else {
      assert xs + tail == xs;
    }
  }

  /** With every element null, no long is left. */
  lemma {:induction false} AllNullIntegers(values: seq<Option<Number>>, i: nat)
    requires i <= |values|
    requires forall j :: 0 <= j < i ==> values[j].None?
    ensures Integers(values[..i]) == []
  {
    if i > 0 {
      IntegersSnoc(values, i - 1);
      AllNullIntegers(values, i - 1);
    }
  }

  // ---------------------------------------------------------------------
  // Conversions of whole collections

  /** Statistic.toIntegers: one entry per input, nulls kept in place. */
  method ToIntegers(numbers: seq<Option<Number>>) returns (list: seq<Option<int>>)
    ensures |list| == |numbers|
    ensures forall i :: 0 <= i < |numbers| ==> list[i] == ToInteger(numbers[i])
  {
    list := [];
    for i := 0 to |numbers|
      invariant |list| == i
      invariant forall j :: 0 <= j < i ==> list[j] == ToInteger(numbers[j])
    {
      list := list + [ToInteger(numbers[i])];
    }
  }

  /** Statistic.toDecimals: one entry per input, nulls kept in place. */
  method ToDecimals(numbers: seq<Option<Number>>) returns (list: seq<Option<real>>)
    ensures |list| == |numbers|
    ensures forall i :: 0 <= i < |numbers| ==> list[i] == ToDecimal(numbers[i])
  {
    list := [];
    for i := 0 to |numbers|
      invariant |list| == i
      invariant forall j :: 0 <= j < i ==> list[j] == ToDecimal(numbers[j])
    {
      list := list + [ToDecimal(numbers[i])];
    }
  }

  // ---------------------------------------------------------------------
  // The statistics

  /** COUNT: the number of non-null values. */
  method Count(values: seq<Option<Number>>) returns (count: nat)
    ensures count == |NonNull(values)|
  {
    count := 0;
    for i := 0 to |values|
      invariant count == |NonNull(values[..i])|
    {
      assert values[..i + 1][..i] == values[..i];
      if values[i].Some? {
        count := count + 1;
      }
    }
    assert values[..|values|] == values;
  }

  /** MIN_INTEGER: the smallest non-null value as a long, or null when there
      is none. */
  method MinInteger(values: seq<Option<Number>>) returns (min: Option<int>)
    ensures min.None? <==> forall i :: 0 <= i < |values| ==> values[i].None?
    ensures min.Some? ==> min.value in Integers(values)
    ensures min.Some? ==> forall x :: x in Integers(values) ==> min.value <= x
  {
    var ints := ToIntegers(values);
    min := None;
    for i := 0 to |ints|
      invariant min.None? <==> forall j :: 0 <= j < i ==> values[j].None?
      invariant min.Some? ==> min.value in Integers(values[..i])
      invariant min.Some? ==> forall x :: x in Integers(values[..i]) ==> min.value <= x
    {
      assert values[..i + 1][..i] == values[..i];
      IntegersSnoc(values, i);
      if min.None? { AllNullIntegers(values, i); }
      var value := ints[i];
      if value.Some? && (min.None? || IntegerAscending(value.value, min.value) < 0) {
        min := value;
      }
    }
    assert values[..|values|] == values;
  }

  /** MAX_INTEGER: the largest non-null value as a long, or null when there
      is none. */
  method MaxInteger(values: seq<Option<Number>>) returns (max: Option<int>)
    ensures max.None? <==> forall i :: 0 <= i < |values| ==> values[i].None?
    ensures max.Some? ==> max.value in Integers(values)
    ensures max.Some? ==> forall x :: x in Integers(values) ==> x <= max.value
  {
    var ints := ToIntegers(values);
    max := None;
    for i := 0 to |ints|
      invariant max.None? <==> forall j :: 0 <= j < i ==> values[j].None?
      invariant max.Some? ==> max.value in Integers(values[..i])
      invariant max.Some? ==> forall x :: x in Integers(values[..i]) ==> x <= max.value
    {
      assert values[..i + 1][..i] == values[..i];
      IntegersSnoc(values, i);
      if max.None? { AllNullIntegers(values, i); }
      var value := ints[i];
      if value.Some? && (max.None? || IntegerAscending(value.value, max.value) > 0) {
        max := value;
      }
    }
    assert values[..|values|] == values;
  }

  /** SUM_INTEGER: the sum of the non-null values as longs (0 if none). */
  method SumInteger(values: seq<Option<Number>>) returns (sum: int)
    ensures sum == Sum(Integers(values))
  {
    sum := 0;
    for i := 0 to |values|
      invariant sum == Sum(Integers(values[..i]))
    {
      IntegersSnoc(values, i);
      SumSnoc(Integers(values[..i]), if values[i].Some? then [LongValue(values[i].value)] else []);
      if values[i].Some? {
        sum := sum + LongValue(values[i].value);
      }
    }
    assert values[..|values|] == values;
  }

  /** SUM_DECIMAL: the sum of the non-null values as doubles (0 if none). */
  method SumDecimal(values: seq<Option<Number>>) returns (sum: real)
    ensures sum == SumReals(Decimals(values))
  {
    sum := 0.0;
    for i := 0 to |values|
      invariant sum == SumReals(Decimals(values[..i]))
    {
      DecimalsSnoc(values, i);
      SumRealsSnoc(Decimals(values[..i]), if values[i].Some? then [DoubleValue(values[i].value)] else []);
      if values[i].Some? {
        sum := sum + DoubleValue(values[i].value);
      }
    }
    assert values[..|values|] == values;
  }

  /** AVERAGE: null when no value is non-null; otherwise the mean of the
      non-null values (nulls count neither in the sum nor in the divisor). */
  method Average(values: seq<Option<Number>>) returns (average: Option<real>)
    ensures average.None? <==> |NonNull(values)| == 0
    ensures average.Some? ==> average.value == Mean(values)
  {
    var count := Count(values);
    if count == 0 {
      return None;
    }
    var sum := SumDecimal(values);
    average := Some(sum / count as real);
  }

  /** STANDARD_DEVIATION: null exactly when AVERAGE is; otherwise the square
      root of the mean squared deviation of the non-null values, dividing by
      COUNT (population form). Math.sqrt is the parameter sqrt. */
  method StandardDeviation(values: seq<Option<Number>>, sqrt: real -> real) returns (deviation: Option<real>)
    ensures deviation.None? <==> |NonNull(values)| == 0
    ensures deviation.Some? ==>
      deviation.value == sqrt(SquaredDeviations(Decimals(values), Mean(values)) / |NonNull(values)| as real)
  {
    var average := Average(values);
    if average.None? {
      return None;
    }
    var sum := SumSquaredDeviations(values, average.value);
    var count := Count(values);
    deviation := Some(sqrt(sum / count as real));
  }

  /** The loop of STANDARD_DEVIATION: the squared distances of the non-null
      values from the average, summed in order. */
  method SumSquaredDeviations(values: seq<Option<Number>>, average: real) returns (sum: real)
    ensures sum == SquaredDeviations(Decimals(values), average)
  {
    var decimals := ToDecimals(values);
    sum := 0.0;
    for i := 0 to |decimals|
      invariant sum == SquaredDeviations(Decimals(values[..i]), average)
    {
      DecimalsSnoc(values, i);
      SquaredDeviationsSnoc(Decimals(values[..i]), if values[i].Some? then [DoubleValue(values[i].value)] else [], average);
      var value := decimals[i];
      if value.Some? {
        var difference := value.value - average;
        sum := sum + difference * difference;
      }
    }
    assert values[..|values|] == values;
  }

  /** The mean of the non-null values as doubles, 0 when there are none. */
  function Mean(values: seq<Option<Number>>): real {
    var n := |NonNull(values)|;
    if n == 0 then 0.0 else SumReals(Decimals(values)) / n as real
  }


  // ---------------------------------------------------------------------
  // Comparison

  /** Statistic.compare: BigDecimal comparison of the two numbers' exact
      values, which returns -1, 0 or 1. */
  function Compare(n1: Number, n2: Number): (r: int)
    ensures r == -1 || r == 0 || r == 1
    ensures r < 0 <==> DoubleValue(n1) < DoubleValue(n2)
    ensures r > 0 <==> DoubleValue(n1) > DoubleValue(n2)
  {
    var a, b := DoubleValue(n1), DoubleValue(n2);
    if a < b then -1 else if a > b then 1 else 0
  }

  /** INTEGER_ASCENDING. */
  function IntegerAscending(n1: int, n2: int): (r: int)
    ensures r < 0 <==> n1 < n2
    ensures r == 0 <==> n1 == n2
  {
    Compare(Integral(n1), Integral(n2))
  }

  /** INTEGER_DESCENDING: compare negated. */
  function IntegerDescending(n1: int, n2: int): (r: int)
    ensures r < 0 <==> n1 > n2
    ensures r == 0 <==> n1 == n2
  {
    Compare(Integral(n1), Integral(n2)) * -1
  }

  /** DECIMAL_ASCENDING. */
  function DecimalAscending(d1: real, d2: real): (r: int)
    ensures r < 0 <==> d1 < d2
    ensures r == 0 <==> d1 == d2
  {
    Compare(Floating(d1), Floating(d2))
  }

  /** DECIMAL_DESCENDING: compare negated. */
  function DecimalDescending(d1: real, d2: real): (r: int)
    ensures r < 0 <==> d1 > d2
    ensures r == 0 <==> d1 == d2
  {
    Compare(Floating(d1), Floating(d2)) * -1
  }

  // ---------------------------------------------------------------------
  // Properties

  /** COUNT is at most the length, and equals it exactly when nothing is null;
      the longs and doubles have one entry per non-null value. */
  lemma {:induction false} CountBounds(values: seq<Option<Number>>)
    ensures |NonNull(values)| <= |values|
    ensures |NonNull(values)| == |values| <==> forall i :: 0 <= i < |values| ==> values[i].Some?
    ensures |Integers(values)| == |NonNull(values)| == |Decimals(values)|
  {
    if values != [] {
      var init := values[..|values| - 1];
      CountBounds(init);
      if |NonNull(values)| == |values| {
        assert |NonNull(init)| == |init|;
        assert forall i :: 0 <= i < |init| ==> init[i] == values[i];
      }
    }
  }

  /** Appending a null changes none of the statistics: nulls are skipped, not
      counted as zero. */
  lemma NullIgnored(values: seq<Option<Number>>)
    ensures NonNull(values + [None]) == NonNull(values)
    ensures Integers(values + [None]) == Integers(values)
    ensures Decimals(values + [None]) == Decimals(values)
    ensures Mean(values + [None]) == Mean(values)
  {
    assert (values + [None])[..|values|] == values;
  }

  /** A value appended to the input contributes exactly itself to the sum. */
  lemma SumAppend(values: seq<Option<Number>>, n: Number)
    ensures Sum(Integers(values + [Some(n)])) == Sum(Integers(values)) + LongValue(n)
    ensures SumReals(Decimals(values + [Some(n)])) == SumReals(Decimals(values)) + DoubleValue(n)
  {
    assert (values + [Some(n)])[..|values|] == values;
    SumSnoc(Integers(values), [LongValue(n)]);
    SumRealsSnoc(Decimals(values), [DoubleValue(n)]);
  }

  /** The mean times COUNT is the sum of the non-null values. */
  lemma MeanTimesCount(values: seq<Option<Number>>)
    requires |NonNull(values)| > 0
    ensures Mean(values) * |NonNull(values)| as real == SumReals(Decimals(values))
  {
  }

  /** Nulls are skipped: the average of 2, 4 and null is 3. */
  lemma AverageOfTwoFourNull()
    ensures Mean([Some(Integral(2)), Some(Integral(4)), None]) == 3.0
  {
    var s := [Some(Integral(2)), Some(Integral(4)), None];
    assert |NonNull(s)| == 2 && Decimals(s) == [2.0, 4.0] by {
      var s1, s2 := [Some(Integral(2))], [Some(Integral(2)), Some(Integral(4))];
      assert s[..2] == s2 && s2[..1] == s1 && s1[..0] == [];
      assert NonNull(s1) == [Integral(2)] && Decimals(s1) == [2.0];
      assert NonNull(s2) == [Integral(2), Integral(4)] && Decimals(s2) == [2.0, 4.0];
    }
    assert SumReals([2.0, 4.0]) == 6.0 by {
      assert [2.0, 4.0][..1] == [2.0] && [2.0][..0] == [];
    }
  }

  /** The descending comparators are the ascending ones negated, i.e. the
      ascending ones with the arguments swapped. */
  lemma DescendingReversesAscending(a: int, b: int, x: real, y: real)
    ensures IntegerDescending(a, b) == -IntegerAscending(a, b) == IntegerAscending(b, a)
    ensures DecimalDescending(x, y) == -DecimalAscending(x, y) == DecimalAscending(y, x)
  {
  }

  /** compare is antisymmetric and transitive, so the comparators are total
      orders as java.util.Comparator requires. */
  lemma CompareIsTotalOrder(a: Number, b: Number, c: Number)
    ensures Compare(a, b) == -Compare(b, a)
    ensures Compare(a, b) <= 0 && Compare(b, c) <= 0 ==> Compare(a, c) <= 0
    ensures Compare(a, b) == 0 <==> DoubleValue(a) == DoubleValue(b)
  {
  }
}
