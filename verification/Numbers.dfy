/** Unsigned decimal numbers in text: str_to_uint (src/common/util.c) and "%u". */
module Numbers {
  import opened Text

  const UINT_LIMIT := 0x1_0000_0000

  predicate IsDigit(c: char) {
    '0' <= c <= '9'
  }

  function DigitOf(c: char): nat
    requires IsDigit(c)
  {
    c as int - '0' as int
  }

  predicate AllDigits(s: string) {
    forall i | 0 <= i < |s| :: IsDigit(s[i])
  }

  /** The number a digit string denotes, of any size. */
  function ValueOf(s: string): nat
    requires AllDigits(s)
  {
    if s == [] then 0 else 10 * ValueOf(s[..|s| - 1]) + DigitOf(s[|s| - 1])
  }

  /** Digits count from the left, tenfold for each that follows. */
  lemma ValueLaw(s: string, c: char)
    requires AllDigits(s) && '0' <= c <= '9'
    ensures ValueOf("") == 0
    ensures AllDigits(s + [c]) && ValueOf(s + [c]) == 10 * ValueOf(s) + (c as int - 48)
  {
    assert (s + [c])[..|s|] == s;
  }

  function SkipBlanks(s: string): string {
    if s != [] && (s[0] == ' ' || s[0] == '\t') then SkipBlanks(s[1..]) else s
  }

  function SkipPlus(s: string): string {
    if s != [] && s[0] == '+' then s[1..] else s
  }

  /** What str_to_uint reads: digits only after blanks and one sign, and less than 2^32. */
  function ParseUint(s: string): Option<nat> {
    var d := SkipPlus(SkipBlanks(s));
    if AllDigits(d) && ValueOf(d) < UINT_LIMIT then Some(ValueOf(d)) else None
  }

  /** `s` has blanks up to `b`, from there at most one plus sign up to `d`, and from there digits only. */
  ghost predicate Numeral(s: string, b: nat, d: nat) {
    && b <= d <= |s|
    && (forall i | 0 <= i < b :: s[i] == ' ' || s[i] == '\t')
    && (s[b..d] == "" || s[b..d] == "+")
    && forall i | d <= i < |s| :: '0' <= s[i] <= '9'
  }

  lemma {:induction false} SkipBlanksTo(s: string) returns (b: nat)
    ensures b <= |s| && SkipBlanks(s) == s[b..] && forall i | 0 <= i < b :: s[i] == ' ' || s[i] == '\t'
    ensures b < |s| ==> s[b] != ' ' && s[b] != '\t'
  {
    if s != [] && (s[0] == ' ' || s[0] == '\t') {
      var c := SkipBlanksTo(s[1..]);
      b := c + 1;
      assert forall i | 0 < i < b :: s[i] == s[1..][i - 1];
      assert s[1..][c..] == s[b..];
    } else {
      b := 0;
    }
  }

  /** Blanks, one plus sign and digits are read, or none of them, but nothing else and nothing that takes
      more than 32 bits. */
  lemma ParseLaw(s: string)
    ensures ParseUint(s).Some? <==>
              exists b: nat, d: nat :: Numeral(s, b, d) && AllDigits(s[d..]) && ValueOf(s[d..]) < 0x1_0000_0000
    ensures forall b: nat, d: nat | ParseUint(s).Some? && Numeral(s, b, d) ::
              AllDigits(s[d..]) && ParseUint(s).value == ValueOf(s[d..])
  {
    var b := SkipBlanksTo(s);
    var d := if b < |s| && s[b] == '+' then b + 1 else b;
    assert SkipPlus(SkipBlanks(s)) == s[d..];
    if ParseUint(s).Some? {
      assert forall i | d <= i < |s| :: s[i] == s[d..][i - d];
      assert Numeral(s, b, d);
    }
    forall c: nat, e: nat | Numeral(s, c, e)
      ensures c == b && e == d && AllDigits(s[d..])
    {
      if c < |s| {
        assert if c < e then s[c] == s[c..e][0] == '+' else '0' <= s[c] <= '9';
      }
      assert c == b;
      assert e < |s| ==> '0' <= s[e] <= '9';
    }
  }

  lemma {:induction false} ValueGrows(s: string, n: nat)
    requires AllDigits(s) && n <= |s|
    ensures ValueOf(s[..n]) <= ValueOf(s)
    decreases |s| - n
  {
    if n == |s| {
      assert s[..n] == s;
    } else {
      assert s[..n + 1][..n] == s[..n];
      ValueGrows(s, n + 1);
    }
  }

  /** One turn of the loop, on 32-bit values: the two overflow tests together notice every overflow. */
  method AddDigit(val: nat, c: char) returns (r: Option<nat>)
    requires val < UINT_LIMIT
    ensures r == if IsDigit(c) && 10 * val + DigitOf(c) < UINT_LIMIT then Some(10 * val + DigitOf(c)) else None
  {
    var shifted := val * 10 % UINT_LIMIT;
    if shifted / 10 != val || !IsDigit(c) {
      return None;
    }
    var sum := (shifted + DigitOf(c)) % UINT_LIMIT;
    if sum < shifted {
      return None;
    }
    r := Some(sum);
  }

  method FirstDigit(s: string) returns (start: nat)
    ensures start <= |s| && s[start..] == SkipPlus(SkipBlanks(s))
  {
    start := 0;
    while start < |s| && (s[start] == ' ' || s[start] == '\t')
      invariant 0 <= start <= |s| && SkipBlanks(s[start..]) == SkipBlanks(s)
    {
      assert s[start..][1..] == s[start + 1..];
      start := start + 1;
    }
    if start < |s| && s[start] == '+' {
      assert s[start..][1..] == s[start + 1..];
      start := start + 1;
    }
  }

  method StrToUint(s: string) returns (r: Option<nat>)
    ensures r == ParseUint(s)
  {
    var start := FirstDigit(s);
    ghost var d := s[start..];
    var val := 0;
    for n := 0 to |s| - start
      invariant AllDigits(d[..n]) && val == ValueOf(d[..n]) < UINT_LIMIT
    {
      var next := AddDigit(val, s[start + n]);
      assert d[..n + 1][..n] == d[..n] && d[n] == s[start + n];
      if next.None? {
        if IsDigit(d[n]) {
          TooBig(d, n + 1);
        }
        return None;
      }
      val := next.value;
    }
    assert d[..|s| - start] == d;
    r := Some(val);
  }

  lemma TooBig(d: string, n: nat)
    requires n <= |d| && AllDigits(d[..n]) && ValueOf(d[..n]) >= UINT_LIMIT
    ensures AllDigits(d) ==> ValueOf(d) >= UINT_LIMIT
  {
    if AllDigits(d) {
      ValueGrows(d, n);
    }
  }

  /** "%u". */
  function Decimal(n: nat): (s: string)
    ensures AllDigits(s) && s != []
  {
    var last := ['0' + (n % 10) as char];
    if n < 10 then last else Decimal(n / 10) + last
  }

  lemma {:induction false} DecimalValue(n: nat)
    ensures ValueOf(Decimal(n)) == n
  {
    var s := Decimal(n);
    if n >= 10 {
      DecimalValue(n / 10);
      assert s[..|s| - 1] == Decimal(n / 10);
    }
  }

  lemma DecimalParses(n: nat)
    requires n < UINT_LIMIT
    ensures ParseUint(Decimal(n)) == Some(n)
  {
    DecimalValue(n);
    assert IsDigit(Decimal(n)[0]);
  }
}
