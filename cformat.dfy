/** The two pieces of C formatting that create_memcg relies on: how `%u`
    renders a 32-bit value, and what `snprintf` leaves in a 256-byte buffer. */
module CFormat {

  const U32_MODULUS: int := 0x1_0000_0000

  /** `uid_t` and the other unsigned 32-bit C values. */
  type U32 = x: int | 0 <= x < U32_MODULUS

  /** `pid_t`, a signed 32-bit C value. */
  type I32 = x: int | -0x8000_0000 <= x < 0x8000_0000

  /** Size of the stack buffer `buf` that create_memcg formats into. */
  const BUF_SIZE: int := 256

  /** The value `%u` prints for a signed 32-bit argument: the same bits read
      as unsigned (two's complement). */
  function AsUnsigned(x: I32): (u: U32)
    ensures 0 <= x ==> u == x
    ensures x < 0 ==> u == x + U32_MODULUS
  {
    x % U32_MODULUS
  }

  predicate IsDigit(c: char) {
    '0' <= c <= '9'
  }

  predicate AllDigits(s: string) {
    forall i :: 0 <= i < |s| ==> IsDigit(s[i])
  }

  function DigitChar(d: int): (c: char)
    requires 0 <= d < 10
    ensures IsDigit(c)
  {
    ('0' as int + d) as char
  }

  function DigitValue(c: char): (d: int)
    requires IsDigit(c)
    ensures 0 <= d < 10
  {
    c as int - '0' as int
  }

  /** The text `%u` produces for `n`: decimal digits, most significant first,
      with no leading zero. */
  function Decimal(n: nat): (s: string)
    ensures AllDigits(s)
    ensures |s| == 1 <==> n < 10
    ensures 1 <= |s|
    ensures 1 < |s| ==> s[0] != '0'
    decreases n
  {
    if n < 10 then [DigitChar(n)] else Decimal(n / 10) + [DigitChar(n % 10)]
  }

  /** Reads a string of decimal digits back as a number (the inverse of Decimal). */
  function ParseDecimal(s: string): nat
    requires AllDigits(s)
    decreases |s|
  {
    if s == [] then 0 else 10 * ParseDecimal(s[..|s| - 1]) + DigitValue(s[|s| - 1])
  }

  lemma {:induction false} DecimalRoundTrip(n: nat)
    ensures ParseDecimal(Decimal(n)) == n
    decreases n
  {
    if n >= 10 {
      var s := Decimal(n);
      assert s[..|s| - 1] == Decimal(n / 10);
      DecimalRoundTrip(n / 10);
    }
  }

  function Pow10(k: nat): nat {
    if k == 0 then 1 else 10 * Pow10(k - 1)
  }

  /** A number below 10^k has at most k digits. */
  lemma {:induction false} DecimalLength(n: nat, k: nat)
    requires 1 <= k && n < Pow10(k)
    ensures |Decimal(n)| <= k
    decreases k
  {
    if n >= 10 {
      assert k > 1;
      DecimalLength(n / 10, k - 1);
    }
  }

  /** `%u` of any 32-bit value needs at most ten characters, so it always
      fits the 256-byte buffer. */
  lemma U32DecimalFits(n: U32)
    ensures |Decimal(n)| <= 10
  {
    assert Pow10(10) == 10_000_000_000;
    DecimalLength(n, 10);
  }

  /** What `snprintf(buf, sizeof(buf), ...)` leaves in `buf` for the full
      text `text`: at most BUF_SIZE - 1 characters (one byte is kept for the
      terminating NUL), the longest such prefix of `text`. */
  function Snprintf(text: string): (r: string)
    ensures |r| <= BUF_SIZE - 1
    ensures r <= text
    ensures |r| == if |text| < BUF_SIZE then |text| else BUF_SIZE - 1
  {
    if |text| < BUF_SIZE then text else text[..BUF_SIZE - 1]
  }

  /** Truncation keeps nesting: the buffer holding a path is a prefix of the
      buffer holding any extension of that path. */
  lemma TruncationKeepsPrefix(text: string, suffix: string)
    ensures Snprintf(text) <= Snprintf(text + suffix)
  {
  }
}
