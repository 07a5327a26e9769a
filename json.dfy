/** The PHP arrays and scalars that the extractor builds and that end up
    JSON-encoded in the request body. A PHP list (keys 0..n-1) is a `List`;
    any other array is an `Object` keyed by strings. */
module Json {

  import opened Wrappers

  datatype Value =
    | Null
    | Bool(b: bool)
    | Int(n: int)
    | Str(s: string)
    | List(items: seq<Value>)
    | Object(fields: map<string, Value>)

  /** A PHP string, or `null` when absent. */
  function OptStr(s: Option<string>): (v: Value)
    ensures v.Null? <==> s.None?
    ensures s.Some? ==> v == Str(s.value)
  {
    match s
    case None => Null
    case Some(t) => Str(t)
  }

  /** The decimal digits of `n`, as PHP prints an integer array key. */
  function DecimalString(n: nat): (r: string)
    ensures |r| > 0
    ensures forall i | 0 <= i < |r| :: '0' <= r[i] <= '9'
    decreases n
  {
    var d := ['0' + (n % 10) as char];
    if n < 10 then d else DecimalString(n / 10) + d
  }

  /** Reads back the number `DecimalString` printed. */
  function DecimalValue(s: string): nat
    decreases |s|
  {
    if |s| == 0 then 0
    else 10 * DecimalValue(s[..|s| - 1]) + ((s[|s| - 1] as int - '0' as int) % 10)
  }

  /** Printing a key and reading it back gives the key: distinct list
      positions become distinct object keys. */
  lemma {:induction false} DecimalRoundTrip(n: nat)
    ensures DecimalValue(DecimalString(n)) == n
    decreases n
  {
    var d := ['0' + (n % 10) as char];
    if n >= 10 {
      var r := DecimalString(n / 10) + d;
      assert r[..|r| - 1] == DecimalString(n / 10);
      DecimalRoundTrip(n / 10);
    }
  }
}
