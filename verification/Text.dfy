/** Text: decimal numbers, read back in 32-bit arithmetic, and filling a buffer. */
module Text {
  import opened Wire

  function DigitChar(d: nat): char
    requires d < 10
  {
    '0' + d as char
  }

  predicate IsDigit(c: char) { '0' <= c <= '9' }

  function DigitOf(c: char): (d: nat)
    requires IsDigit(c)
    ensures d < 10
  {
    (c - '0') as nat
  }

  function Digits(n: nat): (s: string)
    ensures s != "" && forall i :: 0 <= i < |s| ==> IsDigit(s[i])
  {
    if n < 10 then [DigitChar(n)] else Digits(n / 10) + [DigitChar(n % 10)]
  }

  /** The value of a digit string in 32-bit arithmetic. */
  function Value(s: string): (v: nat)
    requires forall i :: 0 <= i < |s| ==> IsDigit(s[i])
    ensures IsU32(v)
  {
    if s == "" then 0
    else (Value(s[..|s| - 1]) * 10 + DigitOf(s[|s| - 1])) % 0x1_0000_0000
  }

  lemma {:induction false} ValueOfDigits(n: nat)
    requires IsU32(n)
    ensures Value(Digits(n)) == n
    decreases n
  {
    var s := Digits(n);
    if n < 10 {
      assert s[..|s| - 1] == "";
    } else {
      ValueOfDigits(n / 10);
      assert s[..|s| - 1] == Digits(n / 10);
    }
  }

  function Pow10(k: nat): nat { if k == 0 then 1 else 10 * Pow10(k - 1) }

  lemma {:induction false} DigitsLength(n: nat, k: nat)
    requires 0 < k && n < Pow10(k)
    ensures |Digits(n)| <= k
    decreases k
  {
    if n >= 10 {
      assert k > 1;
      DigitsLength(n / 10, k - 1);
    }
  }

  /** Ten characters are enough for an AS number. */
  lemma AsnLength(n: nat)
    requires IsU32(n)
    ensures 1 <= |Digits(n)| <= 10
  {
    assert Pow10(5) == 100000;
    assert Pow10(10) == 100000 * Pow10(5);
    DigitsLength(n, 10);
  }

  /** How many digits `s` starts with. */
  function Leading(s: string): (n: nat)
    ensures n <= |s|
    ensures forall i :: 0 <= i < n ==> IsDigit(s[i])
    ensures n < |s| ==> !IsDigit(s[n])
  {
    if s == "" || !IsDigit(s[0]) then 0 else 1 + Leading(s[1..])
  }

  lemma {:induction false} LeadingOf(ds: string, rest: string)
    requires forall i :: 0 <= i < |ds| ==> IsDigit(ds[i])
    requires rest == "" || !IsDigit(rest[0])
    ensures Leading(ds + rest) == |ds|
    decreases |ds|
  {
    if ds == "" {
      assert ds + rest == rest;
    } else {
      assert (ds + rest)[1..] == ds[1..] + rest;
      LeadingOf(ds[1..], rest);
    }
  }

  lemma WrapsOnce(v: nat, d: nat)
    ensures (v * 10 % 0x1_0000_0000 + d) % 0x1_0000_0000 == (v * 10 + d) % 0x1_0000_0000
  {
  }

  lemma LeadingIs(s: string, n: nat)
    requires n <= |s| && (forall i :: 0 <= i < n ==> IsDigit(s[i])) && (n < |s| ==> !IsDigit(s[n]))
    ensures Leading(s) == n
  {
    var m := Leading(s);
  }

  /** Appends text and leaves room for the terminating zero: nothing is cut off. */
  method Emit(buf: array<char>, len: nat, text: string) returns (l: nat)
    requires len + |text| < buf.Length
    modifies buf
    ensures l == len + |text| && buf[..l] == old(buf[..len]) + text
  {
    l := len;
    for i := 0 to |text|
      invariant l == len + i
      invariant buf[..l] == old(buf[..len]) + text[..i]
    {
      buf[l] := text[i];
      l := l + 1;
      assert buf[..l] == old(buf[..len]) + text[..i] + [text[i]];
      assert text[..i] + [text[i]] == text[..i + 1];
    }
    assert text[..|text|] == text;
  }
}
