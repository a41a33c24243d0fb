/** String helpers the handlers use: `toLowerCase` (restricted to ASCII),
    `String(n)` for a natural number, and the hexadecimal rendering of
    random bytes (`Buffer.toString('hex')`). */
module Text {

  /** `c.toLowerCase()` on the ASCII range; every other character is its own lower case. */
  function LowerChar(c: char): char
  {
    if 'A' <= c <= 'Z' then (c as int + 32) as char else c
  }

  function Lower(s: string): (r: string)
    ensures |r| == |s|
    ensures forall i :: 0 <= i < |r| ==> !('A' <= r[i] <= 'Z')
    ensures forall i :: 0 <= i < |s| && !('A' <= s[i] <= 'Z') ==> r[i] == s[i]
    ensures forall i :: 0 <= i < |s| && 'A' <= s[i] <= 'Z' ==> r[i] as int == s[i] as int + 32
  {
    seq(|s|, i requires 0 <= i < |s| => LowerChar(s[i]))
  }

  predicate IsDigit(c: char)
  {
    '0' <= c <= '9'
  }

  function DigitChar(d: nat): (c: char)
    requires d < 10
    ensures IsDigit(c) && c as int - '0' as int == d
  {
    ('0' as int + d) as char
  }

  function DigitValue(c: char): (d: nat)
    requires IsDigit(c)
    ensures d < 10 && DigitChar(d) == c
  {
    c as int - '0' as int
  }

  /** `String(n)`: the shortest decimal numeral for n. */
  function Decimal(n: nat): (r: string)
    ensures |r| >= 1
    ensures forall i :: 0 <= i < |r| ==> IsDigit(r[i])
  {
    if n < 10 then [DigitChar(n)] else Decimal(n / 10) + [DigitChar(n % 10)]
  }

  /** Reads a numeral back; the partner of Decimal. */
  function ParseDecimal(s: string): nat
    requires forall i :: 0 <= i < |s| ==> IsDigit(s[i])
  {
    if |s| == 0 then 0 else ParseDecimal(s[..|s| - 1]) * 10 + DigitValue(s[|s| - 1])
  }

  lemma {:induction false} DecimalRoundTrip(n: nat)
    ensures ParseDecimal(Decimal(n)) == n
  {
    var r := Decimal(n);
    if n >= 10 {
      assert r[..|r| - 1] == Decimal(n / 10);
      DecimalRoundTrip(n / 10);
    }
  }

  /** Different numbers have different numerals. */
  lemma DecimalInjective(m: nat, n: nat)
    requires Decimal(m) == Decimal(n)
    ensures m == n
  {
    DecimalRoundTrip(m);
    DecimalRoundTrip(n);
  }

  /** A positive number's numeral has no leading zero. */
  lemma {:induction false} DecimalLeadingDigit(n: nat)
    requires n > 0
    ensures Decimal(n)[0] != '0'
  {
    if n >= 10 {
      DecimalLeadingDigit(n / 10);
    }
  }

  /** A number of six digits is written with exactly six characters. */
  lemma {:induction false} DecimalSixDigits(n: nat)
    requires 100000 <= n <= 999999
    ensures |Decimal(n)| == 6
  {
    var m := n / 10;
    assert 10000 <= m <= 99999;
    assert |Decimal(m / 1000)| == 2;
    assert |Decimal(m / 100)| == 3;
    assert |Decimal(m / 10)| == 4;
    assert |Decimal(m)| == 5;
  }

  predicate IsHexDigit(c: char)
  {
    '0' <= c <= '9' || 'a' <= c <= 'f'
  }

  /** The lower-case hexadecimal digit for a nibble; `HexValue` reads it back. */
  function HexDigit(d: nat): (c: char)
    requires d < 16
    ensures IsHexDigit(c) && HexValue(c) == d
  {
    if d < 10 then ('0' as int + d) as char else ('a' as int + d - 10) as char
  }

  function HexValue(c: char): nat
    requires IsHexDigit(c)
  {
    if c <= '9' then c as int - '0' as int else c as int - 'a' as int + 10
  }

  /** `Buffer.from(bytes).toString('hex')`: each byte, in order, as two
      lower-case hex digits, the high nibble first. */
  function Hex(bytes: seq<bv8>): (r: string)
    ensures |r| == 2 * |bytes|
    ensures forall i :: 0 <= i < |r| ==> IsHexDigit(r[i])
    ensures forall i :: 0 <= i < |bytes| ==>
      r[2 * i] == HexDigit(bytes[i] as nat / 16) && r[2 * i + 1] == HexDigit(bytes[i] as nat % 16)
  {
    if |bytes| == 0 then []
    else [HexDigit(bytes[0] as nat / 16), HexDigit(bytes[0] as nat % 16)] + Hex(bytes[1..])
  }

  /** A byte is determined by its two nibbles. */
  lemma ByteFromNibbles(x: bv8, y: bv8)
    requires x as nat / 16 == y as nat / 16 && x as nat % 16 == y as nat % 16
    ensures x == y
  {
    var m, n := x as nat, y as nat;
    assert m == 16 * (m / 16) + m % 16;
    assert n == 16 * (n / 16) + n % 16;
  }

  /** The hex rendering loses nothing: equal renderings come from equal bytes. */
  lemma {:induction false} HexInjective(a: seq<bv8>, b: seq<bv8>)
    requires |a| == |b| && Hex(a) == Hex(b)
    ensures a == b
  {
    if |a| > 0 {
      var ha, hb := Hex(a), Hex(b);
      assert HexValue(ha[0]) == a[0] as nat / 16 && HexValue(hb[0]) == b[0] as nat / 16;
      assert HexValue(ha[1]) == a[0] as nat % 16 && HexValue(hb[1]) == b[0] as nat % 16;
      ByteFromNibbles(a[0], b[0]);
      assert Hex(a[1..]) == Hex(b[1..]) by {
        assert Hex(a[1..]) == ha[2..];
        assert Hex(b[1..]) == hb[2..];
      }
      HexInjective(a[1..], b[1..]);
      assert a == [a[0]] + a[1..] && b == [b[0]] + b[1..];
    }
  }
}
