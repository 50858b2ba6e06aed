/** Value types shared by the whole client model: Java's fixed-width integers,
    nullable references, the dynamic JSON values that metadata and filters are
    made of, and the few java.lang string routines the client relies on. */
module Base {

  /** An element of a Java byte[], as its unsigned bit pattern. */
  type byte = x: int | 0 <= x < 256

  /** A Java int. */
  type int32 = x: int | -0x8000_0000 <= x < 0x8000_0000

  /** A Java reference that may be null. */
  datatype Option<+T> = None | Some(value: T) {
    function GetOr(default: T): T {
      match this
      case Some(v) => v
      case None => default
    }
  }

  /** The values a Jackson ObjectMapper produces for Map<String, Object>. */
  datatype Json =
    | JNull
    | JBool(b: bool)
    | JInt(i: int)
    | JNum(x: real)
    | JStr(s: string)
    | JArr(elems: seq<Json>)
    | JObj(fields: map<string, Json>)

  type MetaMap = map<string, Json>

  /** A JSON array of doubles, as Jackson writes a double[]. */
  function Doubles(xs: seq<real>): (j: Json)
    ensures j.JArr? && |j.elems| == |xs|
    ensures forall i :: 0 <= i < |xs| ==> j.elems[i] == JNum(xs[i])
  {
    JArr(seq(|xs|, i requires 0 <= i < |xs| => JNum(xs[i])))
  }

  /** A JSON array of ints, as Jackson writes an int[]. */
  function Ints(xs: seq<int32>): (j: Json)
    ensures j.JArr? && |j.elems| == |xs|
    ensures forall i :: 0 <= i < |xs| ==> j.elems[i] == JInt(xs[i])
  {
    JArr(seq(|xs|, i requires 0 <= i < |xs| => JInt(xs[i])))
  }

  // ---------------------------------------------------------------------------
  // Integer.toString: decimal digits, with a leading '-' for negative values.

  function DigitChar(d: nat): char
    requires d < 10
  {
    "0123456789"[d]
  }

  function NatToString(n: nat): (s: string)
    decreases n
  {
    if n < 10 then [DigitChar(n)] else NatToString(n / 10) + [DigitChar(n % 10)]
  }

  function IntToString(i: int): string {
    if i < 0 then "-" + NatToString(-i) else NatToString(i)
  }

  predicate IsDecimalDigit(c: char) {
    '0' <= c <= '9'
  }

  /** Reads back a string of decimal digits, most significant first. */
  function DecimalValue(s: string): nat
    requires forall i :: 0 <= i < |s| ==> IsDecimalDigit(s[i])
  {
    if s == [] then 0
    else
      assert IsDecimalDigit(s[|s| - 1]);
      DecimalValue(s[..|s| - 1]) * 10 + ((s[|s| - 1] as int) - ('0' as int))
  }

  /** Integer.toString never yields an empty digit string and round-trips
      through decimal reading. */
  lemma {:induction false} NatToStringRoundTrip(n: nat)
    ensures |NatToString(n)| > 0
    ensures forall i :: 0 <= i < |NatToString(n)| ==> IsDecimalDigit(NatToString(n)[i])
    ensures DecimalValue(NatToString(n)) == n
  {
    var s := NatToString(n);
    if n < 10 {
      assert s == [DigitChar(n)];
    } else {
      NatToStringRoundTrip(n / 10);
      var p := NatToString(n / 10);
      assert s == p + [DigitChar(n % 10)];
      assert s[..|s| - 1] == p;
    }
  }

  // ---------------------------------------------------------------------------
  // ASCII case mapping, as String.toLowerCase and equalsIgnoreCase act on ASCII.

  function ToLowerChar(c: char): char {
    if 'A' <= c <= 'Z' then (c as int + 32) as char else c
  }

  /** String.toLowerCase on ASCII letters: the result has no upper-case
      letter, each upper-case letter becomes its lower-case partner, and
      every other character is kept. */
  function ToLower(s: string): (r: string)
    ensures |r| == |s|
    ensures forall i :: 0 <= i < |r| ==> !('A' <= r[i] <= 'Z')
    ensures forall i :: 0 <= i < |s| && 'A' <= s[i] <= 'Z' ==> r[i] as int == s[i] as int + 32
    ensures forall i :: 0 <= i < |s| && !('A' <= s[i] <= 'Z') ==> r[i] == s[i]
  {
    seq(|s|, i requires 0 <= i < |s| => ToLowerChar(s[i]))
  }

  /** String.equalsIgnoreCase restricted to ASCII case: same length, and the
      characters at each position agree once lower-cased. */
  predicate EqualsIgnoreCase(a: string, b: string) {
    |a| == |b| && forall i :: 0 <= i < |a| ==> ToLowerChar(a[i]) == ToLowerChar(b[i])
  }

  /** Lower-casing twice is lower-casing once. */
  lemma ToLowerIdempotent(s: string)
    ensures ToLower(ToLower(s)) == ToLower(s)
  {
  }

  /** equalsIgnoreCase holds exactly when both sides lower-case alike. */
  lemma EqualsIgnoreCaseIffSameLower(a: string, b: string)
    ensures EqualsIgnoreCase(a, b) <==> ToLower(a) == ToLower(b)
  {
    if ToLower(a) == ToLower(b) {
      assert forall i :: 0 <= i < |a| ==> ToLowerChar(a[i]) == ToLower(a)[i] == ToLower(b)[i] == ToLowerChar(b[i]);
    }
  }

  /** Concatenation regrouped, for proofs that build sequences piece by piece. */
  lemma Regroup<T>(a: seq<T>, b: seq<T>, c: seq<T>)
    ensures (a + b) + c == a + (b + c)
  {
  }
}
