/** Reading and printing amounts as fixed decimals (ParseUSD, String and
    trailingZeroes in money/money.go). */
module Decimal {
  import opened Money

  const PER_USD: int := 1_000_000_000
  const MAX_UINT64: int := 0xFFFF_FFFF_FFFF_FFFF

  /** The Unicode White_Space characters that strings.TrimSpace removes. */
  predicate IsSpace(c: char) {
    c in {'\t', '\n', '\U{000B}', '\U{000C}', '\r', ' ', '\U{0085}', '\U{00A0}', '\U{1680}', '\U{2028}', '\U{2029}',
          '\U{202F}', '\U{205F}', '\U{3000}'} || '\U{2000}' <= c <= '\U{200A}'
  }

  function TrimSpace(s: string): string {
    if s != "" && IsSpace(s[0]) then TrimSpace(s[1..])
    else if s != "" && IsSpace(s[|s| - 1]) then TrimSpace(s[..|s| - 1])
    else s
  }

  /** strings.Split on the dot: always at least one piece. */
  function SplitDots(s: string): (pieces: seq<string>)
    ensures |pieces| >= 1
  {
    if s == "" then [""]
    else if s[0] == '.' then [""] + SplitDots(s[1..])
    else
      var rest := SplitDots(s[1..]);
      [[s[0]] + rest[0]] + rest[1..]
  }

  predicate IsDigit(c: char) {
    '0' <= c <= '9'
  }

  predicate AllDigits(s: string) {
    forall i | 0 <= i < |s| :: IsDigit(s[i])
  }

  function DigitValue(c: char): nat
    requires IsDigit(c)
  {
    c as int - '0' as int
  }

  function DigitChar(d: nat): (c: char)
    requires d < 10
    ensures IsDigit(c) && DigitValue(c) == d
  {
    ('0' as int + d) as char
  }

  /** Positional value of a digit string. */
  function Value(s: string): nat
    requires AllDigits(s)
  {
    if s == "" then 0 else Value(s[..|s| - 1]) * 10 + DigitValue(s[|s| - 1])
  }

  /** strconv.ParseUint in base ten; its syntax and its range error both become Invalid. */
  function ParseUint(s: string): Result<nat> {
    if s == "" || !AllDigits(s) || Value(s) > MAX_UINT64 then Err(Invalid) else Ok(Value(s))
  }

  function Zeros(n: nat): (s: string)
    ensures |s| == n && AllDigits(s)
  {
    if n == 0 then "" else Zeros(n - 1) + "0"
  }

  function ParsedParts(whole: string, fraction: string, hasPoint: bool): Result<int> {
    match ParseUint(whole)
    case Err(e) => Err(e)
    case Ok(w) =>
      if w > MAX_INT64 / PER_USD then Err(Overflow)
      else if (hasPoint && fraction == "") || |fraction| > 9 || !AllDigits(fraction) then Err(Invalid)
      else
        var total := w * PER_USD + Value(fraction + Zeros(9 - |fraction|));
        if total > MAX_INT64 then Err(Overflow) else Ok(total)
  }

  function ParsedUSD(raw: string): Result<int> {
    var trimmed := TrimSpace(raw);
    if trimmed == "" then Err(Invalid)
    else
      var body := if trimmed[0] == '+' then trimmed[1..] else trimmed;
      if body != "" && body[0] == '-' then Err(Negative)
      else
        var parts := SplitDots(body);
        if |parts| > 2 || parts[0] == "" then Err(Invalid)
        else if |parts| == 2 then ParsedParts(parts[0], parts[1], true)
        else ParsedParts(parts[0], "", false)
  }

  method ParseUSD(raw: string) returns (r: Result<int>)
    ensures r == ParsedUSD(raw)
    ensures r.Ok? ==> 0 <= r.value <= MAX_INT64
  {
    hide TrimSpace, SplitDots, Value, Zeros;
    var body := TrimSpace(raw);
    if body == "" {
      return Err(Invalid);
    }
    if body[0] == '+' {
      body := body[1..];
    }
    if body != "" && body[0] == '-' {
      return Err(Negative);
    }
    var parts := SplitDots(body);
    if |parts| > 2 || parts[0] == "" {
      return Err(Invalid);
    }
    var whole := ParseUint(parts[0]);
    if whole.Err? {
      return Err(whole.error);
    }
    if whole.value > MAX_INT64 / PER_USD {
      return Err(Overflow);
    }
    var fraction := "";
    if |parts| == 2 {
      fraction := parts[1];
      if fraction == "" || |fraction| > 9 {
        return Err(Invalid);
      }
      for i := 0 to |fraction|
        invariant AllDigits(fraction[..i])
      {
        if fraction[i] < '0' || fraction[i] > '9' {
          return Err(Invalid);
        }
        assert fraction[..i + 1] == fraction[..i] + [fraction[i]];
      }
      assert fraction[..|fraction|] == fraction;
    }
    var padded := fraction + Zeros(9 - |fraction|);
    PaddedFits(padded);
    var total := whole.value * PER_USD + Value(padded);
    if total > MAX_INT64 {
      return Err(Overflow);
    }
    return Ok(total);
  }

  lemma {:induction false} ValueBelow(s: string, bound: nat)
    requires AllDigits(s) && bound == Pow10(|s|)
    ensures Value(s) < bound
  {
    if s != "" {
      ValueBelow(s[..|s| - 1], Pow10(|s| - 1));
    }
  }

  function Pow10(n: nat): (p: nat)
    ensures p > 0
  {
    if n == 0 then 1 else Pow10(n - 1) * 10
  }

  /** Nine digits never leave uint64, so the padded fraction always parses. */
  lemma PaddedFits(s: string)
    requires AllDigits(s) && |s| == 9
    ensures Value(s) < PER_USD
    ensures ParseUint(s) == Ok(Value(s))
  {
    assert Pow10(3) == 1000 && Pow10(6) == 1_000_000;
    assert Pow10(9) == PER_USD;
    ValueBelow(s, PER_USD);
  }

  // ---- Printing ----

  /** strconv.FormatInt of a non-negative number. */
  function Digits(n: nat): (s: string)
    ensures s != "" && AllDigits(s)
  {
    if n < 10 then [DigitChar(n)] else Digits(n / 10) + [DigitChar(n % 10)]
  }

  /** %0kd of a number below 10^k. */
  function Padded(n: nat, k: nat): (s: string)
    ensures |s| == k && AllDigits(s)
  {
    if k == 0 then "" else Padded(n / 10, k - 1) + [DigitChar(n % 10)]
  }

  function TrailingZeroCount(fraction: nat, room: nat): (count: nat)
    ensures count <= room
  {
    if room > 0 && fraction % 10 == 0 then 1 + TrailingZeroCount(fraction / 10, room - 1) else 0
  }

  method TrailingZeroes(fraction: nat) returns (count: nat)
    ensures count == TrailingZeroCount(fraction, 9)
  {
    count := 0;
    var rest := fraction;
    while count < 9 && rest % 10 == 0
      invariant count <= 9
      invariant TrailingZeroCount(fraction, 9) == count + TrailingZeroCount(rest, 9 - count)
    {
      rest := rest / 10;
      count := count + 1;
    }
  }

  /** The printed form of an amount: nine decimals with the trailing zeroes cut. */
  function Printed(n: nat): string {
    var whole, fraction := n / PER_USD, n % PER_USD;
    if fraction == 0 then Digits(whole)
    else Digits(whole) + "." + Padded(fraction, 9)[..9 - TrailingZeroCount(fraction, 9)]
  }

  function SignedPrinted(n: int): string {
    if n < 0 then "-" + Printed(-n) else Printed(n)
  }

  /** The String method; negating MinInt64 never ends in the program, hence the bound. */
  method String(n: Int64) returns (s: string)
    requires n != MIN_INT64
    ensures s == SignedPrinted(n)
    decreases if n < 0 then 1 else 0
  {
    if n < 0 {
      var rest := String(-n);
      return "-" + rest;
    }
    var whole, fraction := n / PER_USD, n % PER_USD;
    if fraction == 0 {
      return Digits(whole);
    }
    var cut := TrailingZeroes(fraction);
    var text := Digits(whole) + "." + Padded(fraction, 9);
    s := text[..|text| - cut];
  }

  lemma {:induction false} ValueOfDigits(n: nat)
    ensures Value(Digits(n)) == n
  {
    if n >= 10 {
      ValueOfDigits(n / 10);
      var s := Digits(n);
      assert s[..|s| - 1] == Digits(n / 10);
    }
  }

  lemma {:induction false} ValueOfPadded(n: nat, k: nat)
    requires n < Pow10(k)
    ensures Value(Padded(n, k)) == n
  {
    if k > 0 {
      PaddedStep(n, k);
      hide *;
      ValueOfPadded(n / 10, k - 1);
      ValueAppend(Padded(n / 10, k - 1), DigitChar(n % 10));
    }
  }

  lemma PaddedStep(n: nat, k: nat)
    requires k > 0 && n < Pow10(k)
    ensures n / 10 < Pow10(k - 1) && Padded(n, k) == Padded(n / 10, k - 1) + [DigitChar(n % 10)]
  {
  }

  lemma ValueAppend(s: string, c: char)
    requires AllDigits(s) && IsDigit(c)
    ensures AllDigits(s + [c]) && Value(s + [c]) == Value(s) * 10 + DigitValue(c)
  {
    assert (s + [c])[..|s|] == s;
  }

  /** Cutting the trailing zeroes and padding them back is the identity. */
  lemma {:induction false} CutAndPad(n: nat, k: nat, room: nat)
    requires room <= k
    ensures var count := TrailingZeroCount(n, room);
            Padded(n, k)[..k - count] + Zeros(count) == Padded(n, k)
  {
    if room > 0 && n % 10 == 0 {
      CutAndPad(n / 10, k - 1, room - 1);
      var all, count := Padded(n / 10, k - 1), TrailingZeroCount(n / 10, room - 1);
      PadZero(n, k);
      assert TrailingZeroCount(n, room) == count + 1 && Zeros(count + 1) == Zeros(count) + "0";
      hide Padded, TrailingZeroCount, Zeros;
      CutDigit(all, k - 1, count, Zeros(count));
    }
  }

  lemma PadZero(n: nat, k: nat)
    requires k > 0 && n % 10 == 0
    ensures Padded(n, k) == Padded(n / 10, k - 1) + "0"
  {
  }

  lemma CutDigit(all: string, length: nat, count: nat, zeros: string)
    requires count <= length == |all| && all[..length - count] + zeros == all
    ensures (all + "0")[..length - count] + (zeros + "0") == all + "0"
  {
    assert (all + "0")[..length - count] == all[..length - count];
    assert all[..length - count] + (zeros + "0") == (all[..length - count] + zeros) + "0";
  }

  lemma {:induction false} ValueOfZeros(k: nat)
    ensures Value(Zeros(k)) == 0
  {
    if k > 0 {
      ValueOfZeros(k - 1);
      assert Zeros(k)[..k - 1] == Zeros(k - 1);
    }
  }

  lemma {:induction false} SplitPlain(s: string)
    requires '.' !in s
    ensures SplitDots(s) == [s]
  {
    if s != "" {
      SplitPlain(s[1..]);
      assert s == [s[0]] + s[1..];
    }
  }

  lemma {:induction false} SplitOnce(a: string, b: string)
    requires '.' !in a && '.' !in b
    ensures SplitDots(a + "." + b) == [a, b]
  {
    var s := a + "." + b;
    if a == "" {
      SplitPlain(b);
      assert s[1..] == b;
    } else {
      SplitOnce(a[1..], b);
      assert s[1..] == a[1..] + "." + b;
      assert a == [a[0]] + a[1..];
    }
  }

  lemma DigitsHaveNoDot(s: string)
    requires AllDigits(s)
    ensures '.' !in s
  {
  }

  lemma PlainText(s: string)
    requires s != "" && IsDigit(s[0]) && IsDigit(s[|s| - 1])
    ensures TrimSpace(s) == s
  {
  }

  lemma ParsePlain(w: string)
    requires w != "" && AllDigits(w)
    ensures ParsedUSD(w) == ParsedParts(w, "", false)
  {
    DigitsHaveNoDot(w);
    PlainText(w);
    SplitPlain(w);
  }

  lemma ParsePoint(w: string, f: string)
    requires w != "" && AllDigits(w) && f != "" && AllDigits(f)
    ensures ParsedUSD(w + "." + f) == ParsedParts(w, f, true)
  {
    DigitsHaveNoDot(w);
    DigitsHaveNoDot(f);
    PlainText(w + "." + f);
    SplitOnce(w, f);
  }

  lemma EmptyPad(f: string)
    ensures f == "" ==> f + Zeros(9) == Zeros(9)
  {
  }

  /** The fraction as printed: not empty, at most nine digits, worth what was printed. */
  lemma PrintedFraction(fraction: nat) returns (f: string)
    requires 0 < fraction < PER_USD
    ensures f == Padded(fraction, 9)[..9 - TrailingZeroCount(fraction, 9)]
    ensures 0 < |f| <= 9 && AllDigits(f) && Value(f + Zeros(9 - |f|)) == fraction
  {
    f := Padded(fraction, 9)[..9 - TrailingZeroCount(fraction, 9)];
    CutAndPad(fraction, 9, 9);
    assert Pow10(3) == 1000 && Pow10(6) == 1_000_000;
    assert Pow10(9) == PER_USD;
    ValueOfPadded(fraction, 9);
    ValueOfZeros(9);
    EmptyPad(f);
  }

  lemma PartsOf(w: string, f: string, hasPoint: bool, n: nat)
    requires w != "" && AllDigits(w) && AllDigits(f) && |f| <= 9 && (hasPoint ==> f != "")
    requires n == Value(w) * PER_USD + Value(f + Zeros(9 - |f|))
    ensures ParsedParts(w, f, hasPoint)
         == if n <= MAX_INT64 then Ok(n) else if n / PER_USD <= MAX_UINT64 then Err(Overflow) else Err(Invalid)
  {
    hide Value, Zeros;
    var padded := f + Zeros(9 - |f|);
    PaddedFits(padded);
    WholeAndFraction(Value(w), Value(padded), n);
    hide AllDigits;
  }

  lemma WholeAndFraction(w: nat, f: nat, n: nat)
    requires n == w * PER_USD + f && f < PER_USD
    ensures n / PER_USD == w && (w > MAX_INT64 / PER_USD ==> n > MAX_INT64)
  {
  }

  /** Reading back what was printed, for every amount however large: the same amount up to
      MaxInt64, an overflow error beyond it, and a syntax error once the dollars leave uint64. */
  lemma ParsePrinted(n: nat)
    ensures ParsedUSD(Printed(n))
         == if n <= MAX_INT64 then Ok(n) else if n / PER_USD <= MAX_UINT64 then Err(Overflow) else Err(Invalid)
  {
    hide ParsedUSD, Digits, Padded, TrailingZeroCount;
    var whole, fraction := n / PER_USD, n % PER_USD;
    ValueOfDigits(whole);
    if fraction == 0 {
      ParsePlain(Digits(whole));
      ValueOfZeros(9);
      EmptyPad("");
      PartsOf(Digits(whole), "", false, n);
    } else {
      var f := PrintedFraction(fraction);
      ParsePoint(Digits(whole), f);
      PartsOf(Digits(whole), f, true, n);
    }
  }

  /** Parse, print and parse again: every accepted text denotes what its printed form denotes. */
  lemma PrintingNormalises(raw: string)
    ensures ParsedUSD(raw).Ok? ==>
              && 0 <= ParsedUSD(raw).value <= MAX_INT64
              && ParsedUSD(Printed(ParsedUSD(raw).value)) == ParsedUSD(raw)
  {
    if ParsedUSD(raw).Ok? {
      ParsePrinted(ParsedUSD(raw).value);
    }
  }

  /** Different amounts print differently, for every amount that prints at all. */
  lemma PrintedIsInjective(n: Int64, m: Int64)
    requires n != MIN_INT64 && m != MIN_INT64 && SignedPrinted(n) == SignedPrinted(m)
    ensures n == m
  {
    hide Printed, ParsedUSD;
    UnsignedHasNoSign(if n < 0 then -n else n);
    UnsignedHasNoSign(if m < 0 then -m else m);
    if n < 0 && m < 0 {
      assert SignedPrinted(n)[1..] == Printed(-n) && SignedPrinted(m)[1..] == Printed(-m);
    }
    ParsePrinted(if n < 0 then -n else n);
    ParsePrinted(if m < 0 then -m else m);
  }

  lemma UnsignedHasNoSign(n: nat)
    ensures Printed(n) != "" && Printed(n)[0] != '-'
  {
    assert IsDigit(Digits(n / PER_USD)[0]);
  }
}
