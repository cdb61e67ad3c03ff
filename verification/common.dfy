/** Values shared by every part of the query pipeline: optional values, the
    outcome of an awaited call, result rows, and the few string operations the
    code relies on (`Array.prototype.join`, number-to-text conversion). */
module Common {

  datatype Option<+T> = None | Some(value: T)

  /** The outcome of an awaited call: the value it resolved to, or what it threw. */
  datatype Result<+T, +E> = Ok(value: T) | Err(error: E)

  /** A cell value of a result row. Decimal columns are kept exactly, in
      hundredths (1200.00 is `Decimal(120000)`). */
  datatype Value = Int(i: int) | Decimal(hundredths: int) | Text(s: string) | Null

  /** One property of a row object; a row lists them in key order, as `Object.keys` does. */
  datatype Field = Field(key: string, value: Value)

  type Row = seq<Field>

  /** `Object.keys(row)`. */
  function Keys(row: Row): seq<string>
  {
    seq(|row|, i requires 0 <= i < |row| => row[i].key)
  }

  /** JavaScript truthiness of an optional string: present and non-empty. */
  predicate Truthy(s: Option<string>)
  {
    s.Some? && s.value != ""
  }

  /** `parts.join(sep)`. */
  function Join(parts: seq<string>, sep: string): string
  {
    if |parts| == 0 then ""
    else if |parts| == 1 then parts[0]
    else parts[0] + sep + Join(parts[1..], sep)
  }

  /** Number of occurrences of `c` in `s`. */
  function CountChar(s: string, c: char): nat
  {
    if |s| == 0 then 0 else (if s[0] == c then 1 else 0) + CountChar(s[1..], c)
  }

  lemma {:induction false} CountCharAppend(a: string, b: string, c: char)
    ensures CountChar(a + b, c) == CountChar(a, c) + CountChar(b, c)
  {
    if |a| > 0 {
      assert (a + b)[1..] == a[1..] + b;
      CountCharAppend(a[1..], b, c);
    } else {
      assert a + b == b;
    }
  }

  lemma {:induction false} CountCharZero(s: string, c: char)
    ensures CountChar(s, c) == 0 <==> c !in s
  {
    if |s| > 0 {
      CountCharZero(s[1..], c);
      assert s == [s[0]] + s[1..];
    }
  }

  /** When every part holds `c` exactly `k` times and the separator not at all,
      the joined text holds it `k` times per part. */
  lemma {:induction false} CountCharJoin(parts: seq<string>, sep: string, c: char, k: nat)
    requires CountChar(sep, c) == 0
    requires forall i :: 0 <= i < |parts| ==> CountChar(parts[i], c) == k
    ensures CountChar(Join(parts, sep), c) == k * |parts|
  {
    if |parts| > 1 {
      CountCharJoin(parts[1..], sep, c, k);
      CountCharAppend(parts[0], sep, c);
      CountCharAppend(parts[0] + sep, Join(parts[1..], sep), c);
    }
  }

  function DigitChar(d: nat): char
    requires d < 10
  {
    "0123456789"[d]
  }

  predicate IsDigit(ch: char)
  {
    '0' <= ch <= '9'
  }

  /** A digit character reads back as the digit it was made from. */
  lemma DigitCharValue(d: nat)
    requires d < 10
    ensures IsDigit(DigitChar(d)) && DigitValue(DigitChar(d)) == d
  {
  }

  /** Decimal text of a natural number, as JavaScript prints an integer. */
  function NatToString(n: nat): (s: string)
    ensures |s| >= 1
    ensures forall i :: 0 <= i < |s| ==> IsDigit(s[i])
    ensures n >= 10 ==> s[0] != '0'
  {
    if n < 10 then [DigitChar(n)] else NatToString(n / 10) + [DigitChar(n % 10)]
  }

  /** The value denoted by a string of decimal digits. */
  function DigitsValue(s: string): nat
    requires forall i :: 0 <= i < |s| ==> IsDigit(s[i])
  {
    if |s| == 0 then 0 else 10 * DigitsValue(s[..|s| - 1]) + DigitValue(s[|s| - 1])
  }

  function DigitValue(ch: char): nat
    requires IsDigit(ch)
  {
    ch as int - '0' as int
  }

  /** Reading the printed digits back gives the number: the text carries `n` exactly. */
  lemma {:induction false} NatToStringRoundTrip(n: nat)
    ensures DigitsValue(NatToString(n)) == n
  {
    var s := NatToString(n);
    if n >= 10 {
      NatToStringRoundTrip(n / 10);
      assert s[..|s| - 1] == NatToString(n / 10);
    }
  }

  /** Decimal text of an integer, with a leading `-` when negative. */
  function IntToString(i: int): string
  {
    if i < 0 then "-" + NatToString(-i) else NatToString(i)
  }

  lemma {:induction false} NoCharInDigits(s: string, c: char)
    requires !IsDigit(c)
    requires forall i :: 0 <= i < |s| ==> IsDigit(s[i])
    ensures CountChar(s, c) == 0
  {
    if |s| > 0 {
      NoCharInDigits(s[1..], c);
    }
  }

  lemma IntToStringHasNo(i: int, c: char)
    requires !IsDigit(c) && c != '-'
    ensures CountChar(IntToString(i), c) == 0
  {
    var digits := NatToString(if i < 0 then -i else i);
    NoCharInDigits(digits, c);
    if i < 0 {
      CountCharAppend("-", digits, c);
    }
  }
}
