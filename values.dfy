/** Values shared by the wait engine: Java's 32-bit `int` with wrap-around,
    decimal rendering of integers, `String.startsWith`, and the loosely typed
    `Map<String, Object>` payloads that browser events carry. */
module WaitValues {

  /** Java `int` (an `AtomicInteger`'s value). */
  newtype int32 = x: int | -0x8000_0000 <= x < 0x8000_0000

  const INT32_MIN: int32 := -0x8000_0000
  const INT32_MAX: int32 := 0x7fff_ffff

  /** `AtomicInteger.incrementAndGet`: two's-complement wrap at the top. */
  function Inc32(x: int32): (r: int32)
    ensures x < INT32_MAX ==> r as int == x as int + 1
    ensures x == INT32_MAX ==> r == INT32_MIN
  {
    if x == INT32_MAX then INT32_MIN else x + 1
  }

  /** `AtomicInteger.decrementAndGet`: no clamp at zero, wrap at the bottom. */
  function Dec32(x: int32): (r: int32)
    ensures x > INT32_MIN ==> r as int == x as int - 1
    ensures x == INT32_MIN ==> r == INT32_MAX
  {
    if x == INT32_MIN then INT32_MAX else x - 1
  }

  predicate IsDigit(c: char) { '0' <= c <= '9' }

  function DigitChar(d: nat): (c: char)
    requires d < 10
    ensures IsDigit(c) && (c as int) - ('0' as int) == d
  {
    ['0', '1', '2', '3', '4', '5', '6', '7', '8', '9'][d]
  }

  /** Decimal digits of a natural number, most significant first. */
  function NatToString(n: nat): (s: string)
    ensures |s| > 0
    ensures forall i :: 0 <= i < |s| ==> IsDigit(s[i])
    ensures n == 0 <==> s == "0"
    decreases n
  {
    if n < 10 then [DigitChar(n)] else NatToString(n / 10) + [DigitChar(n % 10)]
  }

  /** `Long.toString` / `Integer.toString` (also `"" + n`). */
  function IntToString(n: int): (s: string)
    ensures |s| > 0 && (s[0] == '-' || IsDigit(s[0]))
    ensures s[0] == '-' <==> n < 0
  {
    if n < 0 then "-" + NatToString(-n) else NatToString(n)
  }

  /** `String.startsWith`. */
  predicate HasPrefix(s: string, prefix: string) {
    |prefix| <= |s| && s[..|prefix|] == prefix
  }

  lemma PrefixOfConcat(prefix: string, rest: string)
    ensures HasPrefix(prefix + rest, prefix)
  {
    assert (prefix + rest)[..|prefix|] == prefix;
  }

  /** Two prefixes that differ within their common length exclude each other. */
  lemma {:induction false} DistinctPrefixesExclusive(s: string, p: string, q: string, i: nat)
    requires i < |p| && i < |q| && p[i] != q[i]
    requires HasPrefix(s, p)
    ensures !HasPrefix(s, q)
  {
    assert s[..|p|][i] == s[i] == p[i];
    assert |q| <= |s| ==> s[..|q|][i] == s[i];
  }

  /** An `Object` found in an event payload, as far as the engine inspects it:
      `null`, a `String`, a nested `Map` (with the text its `toString` gives),
      or any other object (with the text its `toString` gives). */
  datatype Obj =
    | JNull
    | JString(s: string)
    | JMap(entries: map<string, Obj>, shown: string)
    | JOther(shown: string)

  /** An event payload: a `Map<String, Object>`. */
  type Payload = map<string, Obj>

  /** `Map.get`: a missing key reads as `null`. */
  function Get(m: map<string, Obj>, key: string): (o: Obj)
    ensures key !in m ==> o == JNull
    ensures key in m ==> o == m[key]
  {
    if key in m then m[key] else JNull
  }

  /** `String.valueOf(Object)`. */
  function ValueOf(o: Obj): (s: string)
    ensures o.JNull? ==> s == "null"
    ensures o.JString? ==> s == o.s
  {
    match o
    case JNull => "null"
    case JString(t) => t
    case JMap(_, shown) => shown
    case JOther(shown) => shown
  }

  const EXTRACT_FAILED := "Unable to extract exception details"

  /** `extractExceptionDetails`: the `text` of the nested `exceptionDetails`
      map when there is one, the top-level `text` when that entry is null or
      missing, and a fixed message when the entry is not a map (the cast
      fails and the ClassCastException is caught). */
  function ExtractExceptionDetails(data: Payload): (text: string)
    ensures Get(data, "exceptionDetails").JMap? ==>
              text == ValueOf(Get(Get(data, "exceptionDetails").entries, "text"))
    ensures Get(data, "exceptionDetails").JNull? ==> text == ValueOf(Get(data, "text"))
    ensures (Get(data, "exceptionDetails").JString? || Get(data, "exceptionDetails").JOther?) ==>
              text == EXTRACT_FAILED
  {
    match Get(data, "exceptionDetails")
    case JMap(details, _) => ValueOf(Get(details, "text"))
    case JNull => ValueOf(Get(data, "text"))
    case _ => EXTRACT_FAILED
  }

  /** The payload shapes the extraction reads back: the nested
      `exceptionDetails.text` wins over a top-level `text`, which is used
      when there are no details; details without a `text` entry read as
      "null", whatever the top-level `text` is. */
  lemma ExtractReadsBackText(t: string, u: string, shown: string)
    ensures ExtractExceptionDetails(map["exceptionDetails" := JMap(map["text" := JString(t)], shown),
                                        "text" := JString(u)]) == t
    ensures ExtractExceptionDetails(map["text" := JString(u)]) == u
    ensures ExtractExceptionDetails(map["exceptionDetails" := JNull, "text" := JString(u)]) == u
    ensures ExtractExceptionDetails(map["exceptionDetails" := JMap(map[], shown), "text" := JString(u)]) == "null"
  {
  }
}
