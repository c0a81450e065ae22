/**
 * The integer conversions of C's printf family that the gateway and its
 * tools use to build MQTT topics, payloads and dump labels: `%d`/`%u`
 * (decimal), the `0` flag with a field width (`%03d`), the `+` flag
 * (`%+04d`) and `%x`. Each conversion is paired with the reading that
 * inverts it, so that "the topic names node 5" can be stated as a
 * round-trip rather than as a string.
 */
module Printf {
  import opened Common

  predicate IsDigit(c: char) { '0' <= c <= '9' }

  predicate AllDigits(s: string) { forall i :: 0 <= i < |s| ==> IsDigit(s[i]) }

  function DigitChar(d: nat): (c: char)
    requires d < 10
    ensures IsDigit(c)
  {
    ('0' as int + d) as char
  }

  function DigitValue(c: char): (d: nat)
    requires IsDigit(c)
    ensures d < 10
  {
    c as int - '0' as int
  }

  /** The decimal numeral of `n` without leading zeros: what `%d` and `%u`
      print for a non-negative value. */
  function Decimal(n: nat): (s: string)
    ensures 1 <= |s| && AllDigits(s)
    ensures s[0] == '0' ==> n == 0
    decreases n
  {
    if n < 10 then [DigitChar(n)] else Decimal(n / 10) + [DigitChar(n % 10)]
  }

  /** The value of a string of decimal digits, leading zeros allowed (what
      `%d` scans). */
  function DecimalValue(s: string): nat
    requires AllDigits(s)
  {
    if s == [] then 0 else 10 * DecimalValue(s[..|s| - 1]) + DigitValue(s[|s| - 1])
  }

  function Pow10(k: nat): (p: nat)
    ensures p >= 1
  {
    if k == 0 then 1 else 10 * Pow10(k - 1)
  }

  /** Reading back a printed numeral gives the number. */
  lemma {:induction false} DecimalRoundTrip(n: nat)
    ensures DecimalValue(Decimal(n)) == n
  {
    if n >= 10 {
      var s := Decimal(n);
      assert s[..|s| - 1] == Decimal(n / 10);
      DecimalRoundTrip(n / 10);
    }
  }

  /** A numeral has at most `k` digits exactly when the number is below 10^k. */
  lemma {:induction false} DecimalWidth(n: nat, k: nat)
    requires 1 <= k
    ensures |Decimal(n)| <= k <==> n < Pow10(k)
  {
    if n >= 10 {
      if k == 1 {
        assert |Decimal(n)| == |Decimal(n / 10)| + 1;
      } else {
        DecimalWidth(n / 10, k - 1);
      }
    } else if k > 1 {
      PowMonotone(1, k);
    }
  }

  lemma {:induction false} PowMonotone(j: nat, k: nat)
    requires j <= k
    ensures Pow10(j) <= Pow10(k)
  {
    if j < k {
      PowMonotone(j, k - 1);
    }
  }

  function Zeros(k: nat): (s: string)
    ensures |s| == k
    ensures forall i :: 0 <= i < k ==> s[i] == '0'
  {
    seq(k, _ => '0')
  }

  /** The `0` flag with field width `w`: zeros on the left up to `w` chars. */
  function ZeroPad(s: string, w: nat): (r: string)
    ensures |r| == if |s| < w then w else |s|
  {
    if |s| < w then Zeros(w - |s|) + s else s
  }

  /** `%0wd`: a minus sign for a negative value, then the magnitude padded
      with zeros so that sign and digits together fill at least `w` chars. */
  function FormatInt(n: int, w: nat): (s: string)
    ensures n >= 0 ==> |s| == if |Decimal(n)| < w then w else |Decimal(n)|
    ensures n < 0 ==> |s| >= 2 && s[0] == '-'
  {
    if n < 0 then "-" + ZeroPad(Decimal(-n), if w > 0 then w - 1 else 0)
    else ZeroPad(Decimal(n), w)
  }

  /** `%+0wd`: like `%0wd`, with a `+` sign written for non-negative values. */
  function FormatSignedInt(n: int, w: nat): (s: string)
    ensures |s| >= 2 && (s[0] == '+' || s[0] == '-')
  {
    (if n < 0 then "-" else "+")
      + ZeroPad(Decimal(if n < 0 then -n else n), if w > 0 then w - 1 else 0)
  }

  /** Scanning a signed decimal field written with an explicit sign. */
  function SignedValue(s: string): int
    requires |s| >= 1 && AllDigits(s[1..])
  {
    if s[0] == '-' then 0 - DecimalValue(s[1..]) as int else DecimalValue(s[1..])
  }

  lemma {:induction false} LeadingZeroValue(s: string)
    requires AllDigits(s)
    ensures AllDigits("0" + s) && DecimalValue("0" + s) == DecimalValue(s)
  {
    if s != [] {
      var t := "0" + s;
      assert t[..|t| - 1] == "0" + s[..|s| - 1];
      LeadingZeroValue(s[..|s| - 1]);
    }
  }

  /** Leading zeros never change the value that is read back. */
  lemma {:induction false} ZerosValue(k: nat, s: string)
    requires AllDigits(s)
    ensures AllDigits(Zeros(k) + s) && DecimalValue(Zeros(k) + s) == DecimalValue(s)
  {
    if k > 0 {
      ZerosValue(k - 1, s);
      assert Zeros(k) + s == "0" + (Zeros(k - 1) + s);
      LeadingZeroValue(Zeros(k - 1) + s);
    } else {
      assert Zeros(k) + s == s;
    }
  }

  /** Zero padding never changes the value that is read back. */
  lemma ZeroPadValue(s: string, w: nat)
    requires AllDigits(s)
    ensures AllDigits(ZeroPad(s, w)) && DecimalValue(ZeroPad(s, w)) == DecimalValue(s)
  {
    if |s| < w {
      ZerosValue(w - |s|, s);
    }
  }

  /** `%0wd` of a non-negative number prints only digits and reads back as
      the number. */
  lemma FormatIntRoundTrip(n: nat, w: nat)
    ensures AllDigits(FormatInt(n, w)) && DecimalValue(FormatInt(n, w)) == n
  {
    ZeroPadValue(Decimal(n), w);
    DecimalRoundTrip(n);
  }

  /** `%+0wd` prints a sign and digits, fills at least `w` chars, and reads
      back as the number. */
  lemma FormatSignedIntRoundTrip(n: int, w: nat)
    ensures var s := FormatSignedInt(n, w);
      |s| >= w && AllDigits(s[1..]) && SignedValue(s) == n
  {
    var m: nat := if n < 0 then -n else n;
    var s := FormatSignedInt(n, w);
    assert s[1..] == ZeroPad(Decimal(m), if w > 0 then w - 1 else 0);
    ZeroPadValue(Decimal(m), if w > 0 then w - 1 else 0);
    DecimalRoundTrip(m);
  }

  /** `%03d` of a byte is exactly three digits naming that byte: the width
      never grows past three and the value is recovered. */
  lemma ThreeDigitsOfByte(n: byte)
    ensures |FormatInt(n, 3)| == 3
    ensures AllDigits(FormatInt(n, 3)) && DecimalValue(FormatInt(n, 3)) == n
  {
    DecimalWidth(n, 3);
    FormatIntRoundTrip(n, 3);
  }

  /** `%+04d` of a 16-bit value takes four to six chars. */
  lemma SignedInt16Width(n: i16)
    ensures 4 <= |FormatSignedInt(n, 4)| <= 6
  {
    var m: nat := if n < 0 then 0 - n as int else n;
    DecimalWidth(m, 5);
    FormatSignedIntRoundTrip(n, 4);
  }

  predicate IsHexDigit(c: char) { '0' <= c <= '9' || 'a' <= c <= 'f' }

  predicate AllHexDigits(s: string) { forall i :: 0 <= i < |s| ==> IsHexDigit(s[i]) }

  function HexDigitChar(d: nat): (c: char)
    requires d < 16
    ensures IsHexDigit(c)
  {
    if d < 10 then ('0' as int + d) as char else ('a' as int + (d - 10)) as char
  }

  function HexDigitValue(c: char): (d: nat)
    requires IsHexDigit(c)
    ensures d < 16
  {
    if c <= '9' then c as int - '0' as int else c as int - 'a' as int + 10
  }

  /** The lower-case hexadecimal numeral of `n` without leading zeros (`%x`). */
  function LowerHex(n: nat): (s: string)
    ensures 1 <= |s| && AllHexDigits(s)
    decreases n
  {
    if n < 16 then [HexDigitChar(n)] else LowerHex(n / 16) + [HexDigitChar(n % 16)]
  }

  /** The value of a string of hexadecimal digits, leading zeros allowed. */
  function HexValue(s: string): nat
    requires AllHexDigits(s)
  {
    if s == [] then 0 else 16 * HexValue(s[..|s| - 1]) + HexDigitValue(s[|s| - 1])
  }

  /** `%04x`: the numeral padded with zeros to at least four digits. */
  function FormatHex4(n: nat): string
  {
    ZeroPad(LowerHex(n), 4)
  }

  /** Reading back a printed hexadecimal numeral gives the number. */
  lemma {:induction false} LowerHexRoundTrip(n: nat)
    ensures HexValue(LowerHex(n)) == n
  {
    if n >= 16 {
      var s := LowerHex(n);
      assert s[..|s| - 1] == LowerHex(n / 16);
      LowerHexRoundTrip(n / 16);
    }
  }

  /** A hexadecimal numeral has at most four digits exactly when the number
      is below 0x10000. */
  lemma {:induction false} LowerHexWidth(n: nat)
    ensures |LowerHex(n)| <= 4 <==> n < 0x1_0000
  {
    if n >= 16 {
      assert |LowerHex(n)| == |LowerHex(n / 16)| + 1;
      if n / 16 >= 16 {
        assert |LowerHex(n / 16)| == |LowerHex(n / 256)| + 1;
        if n / 256 >= 16 {
          assert |LowerHex(n / 256)| == |LowerHex(n / 4096)| + 1;
          if n / 4096 >= 16 {
            assert |LowerHex(n / 4096)| == |LowerHex(n / 65536)| + 1;
          }
        }
      }
    }
  }

  lemma {:induction false} HexZerosValue(k: nat, s: string)
    requires AllHexDigits(s)
    ensures AllHexDigits(Zeros(k) + s) && HexValue(Zeros(k) + s) == HexValue(s)
    decreases |s|
  {
    var t := Zeros(k) + s;
    if s != [] {
      assert t[..|t| - 1] == Zeros(k) + s[..|s| - 1];
      HexZerosValue(k, s[..|s| - 1]);
    } else {
      HexZerosOnly(k);
      assert t == Zeros(k);
    }
  }

  lemma {:induction false} HexZerosOnly(k: nat)
    ensures AllHexDigits(Zeros(k)) && HexValue(Zeros(k)) == 0
  {
    if k > 0 {
      assert Zeros(k)[..k - 1] == Zeros(k - 1);
      HexZerosOnly(k - 1);
    }
  }

  /** `%04x` prints hexadecimal digits that read back as the number, exactly
      four of them for a number below 0x10000 and never fewer. */
  lemma FormatHex4RoundTrip(n: nat)
    ensures var s := FormatHex4(n);
      && AllHexDigits(s) && HexValue(s) == n
      && |s| >= 4 && (|s| == 4 <==> n < 0x1_0000)
  {
    var h := LowerHex(n);
    LowerHexRoundTrip(n);
    LowerHexWidth(n);
    if |h| < 4 {
      HexZerosValue(4 - |h|, h);
    }
  }
}
