/** HTMLReportPrinter.toDuration: a number of milliseconds decomposed into
    days, hours, minutes, seconds and milliseconds and rendered as text such
    as "1 days 2 hours 5 milliseconds". */
module Durations {
  import opened Values

  const MillisPerSecond := 1000
  const MillisPerMinute := 60000
  const MillisPerHour := 3600000
  const MillisPerDay := 86400000

  /** Java's integer division on longs, which truncates toward zero
      (TimeUnit.MILLISECONDS.toDays and friends). */
  function TruncDiv(a: int, b: int): (q: int)
    requires b > 0
    ensures a >= 0 ==> q >= 0 && 0 <= a - b * q < b
    ensures a < 0 ==> q <= 0 && -b < a - b * q <= 0
  {
    if a >= 0 then
      EuclideanDivision(a, b);
      a / b
    else
      var k := (-a) / b;
      EuclideanDivision(-a, b);
      assert b * -k == -(b * k);
      -k
  }

  lemma EuclideanDivision(n: int, b: int)
    requires n >= 0 && b > 0
    ensures n == b * (n / b) + n % b && 0 <= n % b < b && n / b >= 0
  {
  }

  datatype Components = Components(days: int, hours: int, minutes: int, seconds: int, millis: int)

  /** The decomposition toDuration performs: each unit takes the truncated
      quotient of what the larger units left. */
  function Decompose(milliseconds: int): Components {
    var days := TruncDiv(milliseconds, MillisPerDay);
    var r1 := milliseconds - days * MillisPerDay;
    var hours := TruncDiv(r1, MillisPerHour);
    var r2 := r1 - hours * MillisPerHour;
    var minutes := TruncDiv(r2, MillisPerMinute);
    var r3 := r2 - minutes * MillisPerMinute;
    var seconds := TruncDiv(r3, MillisPerSecond);
    Components(days, hours, minutes, seconds, r3 - seconds * MillisPerSecond)
  }

  /** The units add back up to the input; for a non-negative input each
      unit is below the next larger one, and for a non-positive input no
      unit is positive. */
  lemma DecomposeReconstructs(milliseconds: int)
    ensures var c := Decompose(milliseconds);
      c.days * MillisPerDay + c.hours * MillisPerHour + c.minutes * MillisPerMinute
      + c.seconds * MillisPerSecond + c.millis == milliseconds
    ensures var c := Decompose(milliseconds);
      milliseconds >= 0 ==> (c.days >= 0 && 0 <= c.hours < 24 && 0 <= c.minutes < 60
      && 0 <= c.seconds < 60 && 0 <= c.millis < 1000)
    ensures var c := Decompose(milliseconds);
      milliseconds <= 0 ==> (c.days <= 0 && c.hours <= 0 && c.minutes <= 0
      && c.seconds <= 0 && c.millis <= 0)
  {
  }

  // ---------------------------------------------------------------------
  // Text

  /** One rendered unit, e.g. "3 hours": the unit word is always plural. */
  function Part(amount: nat, unit: string): string {
    DecimalString(amount) + " " + unit
  }

  /** The rendered unit when its amount is positive, nothing otherwise. */
  function Opt(amount: int, unit: string): seq<string> {
    if amount > 0 then [Part(amount, unit)] else []
  }

  /** The rendered units with a positive amount, largest unit first. */
  function Parts(c: Components): seq<string> {
    Opt(c.days, "days") + Opt(c.hours, "hours") + Opt(c.minutes, "minutes")
    + Opt(c.seconds, "seconds") + Opt(c.millis, "milliseconds")
  }

  /** Each part preceded by one space. */
  function Spaced(parts: seq<string>): string {
    if parts == [] then "" else " " + parts[0] + Spaced(parts[1..])
  }

  /** The parts separated by single spaces. */
  function Join(parts: seq<string>): string
    requires parts != []
  {
    parts[0] + Spaced(parts[1..])
  }

  /** The parts joined, or nothing when there are none. */
  function Leading(parts: seq<string>): string {
    if parts == [] then "" else Join(parts)
  }

  /** The text toDuration returns for a decomposition. */
  function Render(c: Components): string {
    var parts := Parts(c);
    if parts == [] then "0 milliseconds" else Join(parts)
  }

  /** String.trim: drop every leading and trailing character <= ' '. */
  function TrimStart(s: string): string {
    if s != [] && s[0] <= ' ' then TrimStart(s[1..]) else s
  }

  function TrimEnd(s: string): string {
    if s != [] && s[|s| - 1] <= ' ' then TrimEnd(s[..|s| - 1]) else s
  }

  function Trim(s: string): string {
    TrimEnd(TrimStart(s))
  }

  /** toDuration, statement by statement: subtract each unit in turn, then
      append " N unit" for every positive amount and trim. */
  method ToDuration(milliseconds: int) returns (text: string)
    ensures text == Render(Decompose(milliseconds))
  {
    var c := Subtract(milliseconds);
    var s := Append(c);
    PartsSplit(c);
    LeadingThenSpaced(Opt(c.days, "days"), Later(c));
    if s == "" {
      return "0 milliseconds";
    }
    PartsBounded(c);
    if c.days > 0 {
      TrimJoined(Parts(c));
    } else {
      TrimSpaced(Parts(c));
    }
    return Trim(s);
  }

  /** The first half of toDuration: each unit's amount, the remainder
      reduced by it before the next unit. */
  method Subtract(milliseconds: int) returns (c: Components)
    ensures c == Decompose(milliseconds)
  {
    var ms := milliseconds;
    var days := TruncDiv(ms, MillisPerDay);
    ms := ms - days * MillisPerDay;
    var hours := TruncDiv(ms, MillisPerHour);
    ms := ms - hours * MillisPerHour;
    var minutes := TruncDiv(ms, MillisPerMinute);
    ms := ms - minutes * MillisPerMinute;
    var seconds := TruncDiv(ms, MillisPerSecond);
    ms := ms - seconds * MillisPerSecond;
    c := Components(days, hours, minutes, seconds, ms);
  }

  /** The rendered units after days. */
  function Later(c: Components): seq<string> {
    Opt(c.hours, "hours") + Opt(c.minutes, "minutes") + Opt(c.seconds, "seconds") + Opt(c.millis, "milliseconds")
  }

  /** The second half of toDuration: " N unit" appended for every positive
      amount, except that the days come first with no space. */
  method Append(c: Components) returns (s: string)
    ensures s == Leading(Opt(c.days, "days")) + Spaced(Later(c))
  {
    s := "";
    if c.days > 0 {
      s := s + Part(c.days, "days");
    }
    ghost var first := Opt(c.days, "days");
    ghost var rest: seq<string> := [];
    assert s == Leading(first) + Spaced(rest);
    if c.hours > 0 {
      s := s + " " + Part(c.hours, "hours");
      SpacedSnoc(Leading(first), rest, Part(c.hours, "hours"));
    } else {
      assert rest + Opt(c.hours, "hours") == rest;
    }
    rest := Opt(c.hours, "hours");
    assert s == Leading(first) + Spaced(rest);
    if c.minutes > 0 {
      s := s + " " + Part(c.minutes, "minutes");
      SpacedSnoc(Leading(first), rest, Part(c.minutes, "minutes"));
    } else {
      assert rest + Opt(c.minutes, "minutes") == rest;
    }
    rest := rest + Opt(c.minutes, "minutes");
    assert s == Leading(first) + Spaced(rest);
    if c.seconds > 0 {
      s := s + " " + Part(c.seconds, "seconds");
      SpacedSnoc(Leading(first), rest, Part(c.seconds, "seconds"));
    } else {
      assert rest + Opt(c.seconds, "seconds") == rest;
    }
    rest := rest + Opt(c.seconds, "seconds");
    assert s == Leading(first) + Spaced(rest);
    if c.millis > 0 {
      s := s + " " + Part(c.millis, "milliseconds");
      SpacedSnoc(Leading(first), rest, Part(c.millis, "milliseconds"));
    } else {
      assert rest + Opt(c.millis, "milliseconds") == rest;
    }
    rest := rest + Opt(c.millis, "milliseconds");
  }

  // ---------------------------------------------------------------------
  // Proof of ToDuration

  lemma {:induction false} SpacedAppend(ps: seq<string>, qs: seq<string>)
    ensures Spaced(ps + qs) == Spaced(ps) + Spaced(qs)
  {
    if ps == [] {
      assert ps + qs == qs;
    } else {
      assert (ps + qs)[1..] == ps[1..] + qs;
      SpacedAppend(ps[1..], qs);
    }
  }

  lemma {:induction false} SpacedSnoc(prefix: string, ps: seq<string>, p: string)
    ensures prefix + Spaced(ps) + " " + p == prefix + Spaced(ps + [p])
    decreases ps
  {
    if ps == [] {
      assert ps + [p] == [p];
      assert Spaced([p]) == " " + p + Spaced([]);
    } else {
      assert (ps + [p])[1..] == ps[1..] + [p];
      SpacedSnoc([], ps[1..], p);
      assert [] + Spaced(ps[1..]) == Spaced(ps[1..]);
      assert [] + Spaced(ps[1..] + [p]) == Spaced(ps[1..] + [p]);
    }
  }

  lemma PartsSplit(c: Components)
    ensures Parts(c) == Opt(c.days, "days") + Later(c)
  {
  }

  /** The string toDuration accumulates is the parts with one space before
      each, except that the first part, when it is the days, has none. */
  lemma LeadingThenSpaced(first: seq<string>, rest: seq<string>)
    requires first == [] || (|first| == 1 && first[0] != "")
    ensures Leading(first) + Spaced(rest) == "" <==> first + rest == []
    ensures first != [] ==> Leading(first) + Spaced(rest) == Join(first + rest)
    ensures first == [] ==> Leading(first) + Spaced(rest) == Spaced(first + rest)
  {
    if first != [] {
      LeadingOne(first, rest);
    } else {
      assert first + rest == rest;
      if rest != [] {
        assert Spaced(rest)[0] == ' ';
      }
    }
  }

  /** A single leading part joins the spaced ones that follow it. */
  lemma LeadingOne(first: seq<string>, rest: seq<string>)
    requires |first| == 1 && first[0] != ""
    ensures Leading(first) + Spaced(rest) == Join(first + rest) != ""
  {
    assert Leading(first) == first[0];
    assert (first + rest)[1..] == rest;
  }

  /** Every part starts with a digit and ends with a letter. */
  predicate Bounded(p: string) {
    |p| >= 1 && '0' <= p[0] <= '9' && p[|p| - 1] > ' '
  }

  lemma PartsBounded(c: Components)
    ensures forall i :: 0 <= i < |Parts(c)| ==> Bounded(Parts(c)[i])
  {
  }

  lemma {:induction false} JoinBounded(parts: seq<string>)
    requires parts != []
    requires forall i :: 0 <= i < |parts| ==> Bounded(parts[i])
    ensures |Join(parts)| >= 1 && '0' <= Join(parts)[0] <= '9'
    ensures Join(parts)[|Join(parts)| - 1] > ' '
  {
    if |parts| > 1 {
      JoinBounded(parts[1..]);
      assert Spaced(parts[1..]) == " " + Join(parts[1..]);
    } else {
      assert Join(parts) == parts[0];
    }
  }

  /** Trimming a non-blank text, with or without one space in front,
      gives the text. */
  lemma TrimOneSpace(s: string, j: string)
    requires |j| >= 1 && j[0] > ' ' && j[|j| - 1] > ' '
    requires s == j || s == " " + j
    ensures Trim(s) == j
  {
    assert TrimStart(j) == j;
    assert TrimEnd(j) == j;
    if s != j {
      assert s[0] <= ' ' && s[1..] == j;
      assert TrimStart(s) == TrimStart(j);
    }
  }

  /** Spacing every part is one space in front of the joined parts. */
  lemma SpacedJoin(parts: seq<string>)
    requires parts != []
    ensures Spaced(parts) == " " + Join(parts)
  {
    assert Spaced(parts) == " " + parts[0] + Spaced(parts[1..]);
  }

  /** Trimming the joined parts changes nothing. */
  lemma TrimJoined(parts: seq<string>)
    requires parts != []
    requires forall i :: 0 <= i < |parts| ==> Bounded(parts[i])
    ensures Trim(Join(parts)) == Join(parts)
  {
    JoinBounded(parts);
    TrimOneSpace(Join(parts), Join(parts));
  }

  /** Trimming removes the single space in front of the spaced parts and
      nothing else. */
  lemma TrimSpaced(parts: seq<string>)
    requires parts != []
    requires forall i :: 0 <= i < |parts| ==> Bounded(parts[i])
    ensures Trim(Spaced(parts)) == Join(parts)
  {
    JoinBounded(parts);
    SpacedJoin(parts);
    TrimOneSpace(Spaced(parts), Join(parts));
  }

  // ---------------------------------------------------------------------
  // Properties of the rendered text

  /** The text is "0 milliseconds" exactly when the input is not positive:
      a positive input always shows at least one unit, and a shown unit
      never has amount 0. */
  lemma ZeroDurationIffNotPositive(milliseconds: int)
    ensures Render(Decompose(milliseconds)) == "0 milliseconds" <==> milliseconds <= 0
  {
    var c := Decompose(milliseconds);
    var parts := Parts(c);
    DecomposeReconstructs(milliseconds);
    if milliseconds > 0 {
      assert parts != [];
      assert parts[0][0] != '0';
      assert Render(c)[0] == parts[0][0];
    }
  }

  /** The text never starts or ends with a space. */
  lemma RenderTrimmed(milliseconds: int)
    ensures var text := Render(Decompose(milliseconds));
      |text| >= 1 && text[0] != ' ' && text[|text| - 1] != ' '
  {
    var c := Decompose(milliseconds);
    if Parts(c) != [] {
      PartsBounded(c);
      JoinBounded(Parts(c));
    }
  }

  /** 90061001 milliseconds are one of each unit. */
  lemma EveryUnitOnce()
    ensures Decompose(90061001) == Components(1, 1, 1, 1, 1)
  {
    assert TruncDiv(90061001, MillisPerDay) == 1;
    assert TruncDiv(3661001, MillisPerHour) == 1;
    assert TruncDiv(61001, MillisPerMinute) == 1;
    assert TruncDiv(1001, MillisPerSecond) == 1;
  }

  /** An exact hour shows only the hours, still in the plural. */
  lemma OneHour()
    ensures Render(Decompose(3600000)) == "1 hours"
  {
    assert Decompose(3600000) == Components(0, 1, 0, 0, 0) by {
      assert TruncDiv(3600000, MillisPerDay) == 0;
      assert TruncDiv(3600000, MillisPerHour) == 1;
    }
    assert DecimalString(1) == "1";
    assert Part(1, "hours") == "1 hours";
    assert Parts(Components(0, 1, 0, 0, 0)) == ["1 hours"];
  }
}
