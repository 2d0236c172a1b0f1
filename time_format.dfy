/** `formatTime`, which both the attempt screen and the results screen use to
    show a number of seconds as `m:ss`, together with the decimal rendering of
    non-negative integers it relies on (`Number.prototype.toString`,
    `String.prototype.padStart(2, '0')`) and the parser that inverts it. */
module TimeFormat {
  import opened Wrappers

  predicate IsDigit(c: char)
  {
    '0' <= c <= '9'
  }

  predicate AllDigits(s: string)
  {
    forall i :: 0 <= i < |s| ==> IsDigit(s[i])
  }

  function DigitChar(d: nat): (c: char)
    requires d < 10
    ensures IsDigit(c)
  {
    "0123456789"[d]
  }

  function DigitValue(c: char): nat
  {
    if IsDigit(c) then (c as int) - ('0' as int) else 0
  }

  /** The decimal numeral of `n`, without leading zeros, as JavaScript prints it. */
  function Decimal(n: nat): (r: string)
    ensures |r| >= 1 && AllDigits(r)
    ensures r[0] == '0' ==> n == 0
  {
    if n < 10 then [DigitChar(n)] else Decimal(n / 10) + [DigitChar(n % 10)]
  }

  /** The value of a string of decimal digits. */
  function ParseDecimal(s: string): nat
  {
    if s == [] then 0 else ParseDecimal(s[..|s| - 1]) * 10 + DigitValue(s[|s| - 1])
  }

  /** Reading back a rendered number gives the number. */
  lemma {:induction false} ParseDecimalOfDecimal(n: nat)
    ensures ParseDecimal(Decimal(n)) == n
  {
    if n >= 10 {
      var s := Decimal(n);
      assert s[..|s| - 1] == Decimal(n / 10);
      ParseDecimalOfDecimal(n / 10);
    }
  }

  /** Rendering is injective: distinct numbers have distinct numerals. */
  lemma DecimalInjective(a: nat, b: nat)
    requires Decimal(a) == Decimal(b)
    ensures a == b
  {
    ParseDecimalOfDecimal(a);
    ParseDecimalOfDecimal(b);
  }

  /** `s.padStart(2, '0')`: left-pads with zeros up to length two. */
  function PadTwo(s: string): (r: string)
    ensures |r| == if |s| >= 2 then |s| else 2
  {
    if |s| >= 2 then s else seq(2 - |s|, _ => '0') + s
  }

  /** Padding only adds zeros in front: the text ends with `s`, and every
      added character is `'0'`. */
  lemma PadTwoAddsZeros(s: string)
    ensures PadTwo(s)[|PadTwo(s)| - |s|..] == s
    ensures forall i :: 0 <= i < |PadTwo(s)| - |s| ==> PadTwo(s)[i] == '0'
  {
    if |s| < 2 {
      assert PadTwo(s) == seq(2 - |s|, _ => '0') + s;
    }
  }

  /** `formatTime(seconds)`: the whole minutes, a colon, and the remaining
      seconds padded to two digits. */
  function FormatTime(seconds: nat): (r: string)
    ensures |r| >= 4 && r[|r| - 3] == ':'
    ensures AllDigits(r[..|r| - 3]) && AllDigits(r[|r| - 2..])
    ensures r[0] == '0' ==> |r| == 4
  {
    PadTwoOfSeconds(seconds % 60);
    var minutes, secs := Decimal(seconds / 60), PadTwo(Decimal(seconds % 60));
    var r := minutes + ":" + secs;
    assert r[..|r| - 3] == minutes && r[|r| - 2..] == secs;
    r
  }

  /** Reads an `m:ss` string back: digits, a colon, then exactly two digits
      below 60. Anything else is not a time `FormatTime` can produce. */
  function ParseTime(t: string): (r: Option<nat>)
    ensures r.Some? ==> |t| >= 4 && t[|t| - 3] == ':' && ParseDecimal(t[|t| - 2..]) < 60
  {
    if |t| >= 4 && t[|t| - 3] == ':' && AllDigits(t[..|t| - 3]) && AllDigits(t[|t| - 2..])
       && ParseDecimal(t[|t| - 2..]) < 60
    then Some(ParseDecimal(t[..|t| - 3]) * 60 + ParseDecimal(t[|t| - 2..]))
    else None
  }

  /** A two-digit padding of a number below 60 reads back as that number. */
  lemma PadTwoOfSeconds(secs: nat)
    requires secs < 60
    ensures |PadTwo(Decimal(secs))| == 2
    ensures AllDigits(PadTwo(Decimal(secs)))
    ensures ParseDecimal(PadTwo(Decimal(secs))) == secs
  {
    var d := Decimal(secs);
    ParseDecimalOfDecimal(secs);
    if secs < 10 {
      assert PadTwo(d) == ['0', DigitChar(secs)];
      assert PadTwo(d)[..1] == ['0'];
    } else {
      assert Decimal(secs / 10) == [DigitChar(secs / 10)];
    }
  }

  /** The displayed time determines the elapsed seconds: the minutes part
      times 60 plus the two-digit seconds part gives back the input. */
  lemma {:induction false} FormatTimeRoundTrip(seconds: nat)
    ensures ParseTime(FormatTime(seconds)) == Some(seconds)
  {
    var m, s := seconds / 60, seconds % 60;
    var t := FormatTime(seconds);
    PadTwoOfSeconds(s);
    ParseDecimalOfDecimal(m);
    assert t[..|t| - 3] == Decimal(m);
    assert t[|t| - 2..] == PadTwo(Decimal(s));
  }

  /** Two different durations never display the same. */
  lemma FormatTimeInjective(a: nat, b: nat)
    requires FormatTime(a) == FormatTime(b)
    ensures a == b
  {
    FormatTimeRoundTrip(a);
    FormatTimeRoundTrip(b);
  }

}
