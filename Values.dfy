/** The values a table cell can hold and the runtime types a column can
    declare. The source stores arbitrary Java objects and checks them with
    Class.cast; the tables of the benchmark tool only ever use the five
    classes below, so the model uses a closed sum type. */
module Values {
  import opened Wrappers

  /** java.lang.String, Integer, Long, Double and Boolean. */
  datatype ValueType = StringType | IntegerType | LongType | DoubleType | BooleanType

  /** A cell value: null, or an instance of one of the five classes.
      Integer and Long are unbounded here and Double is an exact real. */
  datatype Value =
    | Null
    | Str(s: string)
    | Int(i: int)
    | Lng(l: int)
    | Dbl(d: real)
    | Bool(b: bool)

  /** The class of a non-null value (Object.getClass). */
  function TypeOf(v: Value): (t: Option<ValueType>)
    ensures t.None? <==> v.Null?
  {
    match v
    case Null => None
    case Str(_) => Some(StringType)
    case Int(_) => Some(IntegerType)
    case Lng(_) => Some(LongType)
    case Dbl(_) => Some(DoubleType)
    case Bool(_) => Some(BooleanType)
  }

  /** What Class.cast accepts: null, or an instance of exactly that class
      (the five classes are final and unrelated). */
  predicate Conforms(v: Value, t: ValueType) {
    v.Null? || TypeOf(v) == Some(t)
  }

  /** Long.toString and Integer.toString of a non-negative number: its
      decimal digits, with no leading zero. */
  function DecimalString(n: nat): (s: string)
    ensures |s| >= 1
    ensures forall i :: 0 <= i < |s| ==> '0' <= s[i] <= '9'
    ensures n > 0 ==> s[0] != '0'
    decreases n
  {
    var digit := ['0' + (n % 10) as char];
    if n < 10 then digit else DecimalString(n / 10) + digit
  }

  /** Long.toString and Integer.toString: a minus sign before the digits of
      a negative number. */
  function IntegerString(i: int): (s: string)
    ensures |s| >= 1 && (s[0] == '-' <==> i < 0)
    ensures forall k :: 0 < k < |s| ==> '0' <= s[k] <= '9'
  {
    if i < 0 then "-" + DecimalString(-i) else DecimalString(i)
  }

  /** String.valueOf: the text of a value, "null" for null. Double.toString
      is a parameter, since the model has no floating-point numbers. */
  function Text(v: Value, doubleText: real -> string): string {
    match v
    case Null => "null"
    case Str(s) => s
    case Int(i) => IntegerString(i)
    case Lng(l) => IntegerString(l)
    case Dbl(d) => doubleText(d)
    case Bool(b) => if b then "true" else "false"
  }
}
