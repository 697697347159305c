/**
 * The pure helpers the control loop relies on: manual step arithmetic, the
 * keyboard ambient policy, the step size of a device, and the decimal text
 * format of the brightness and sensor files.
 */
module Helpers {
  import opened Types

  // ---------------------------------------------------------------------
  // Level arithmetic
  // ---------------------------------------------------------------------

  /** One step down: `u32` saturating subtraction, floor 0. */
  function StepDown(val: U32, step: U32): (r: U32)
    ensures r <= val
    ensures val <= r + step
    ensures r > 0 ==> r + step == val
  {
    if step <= val then val - step else 0
  }

  /** The unchecked `u32` sum inside `StepUp` stays in range. */
  predicate AddFits(val: U32, step: U32) {
    val + step <= U32_MAX
  }

  /** One step up, capped at the device maximum. */
  function StepUp(val: U32, step: U32, max: U32): (r: U32)
    requires AddFits(val, step)
    ensures r <= max
    ensures r == val + step <==> val + step <= max
    ensures r != val + step ==> r == max
  {
    var sum := val + step;
    if sum > max then max else sum
  }

  /** A level already above the maximum is pulled down to it by a step up. */
  lemma StepUpAboveMaxLowers(val: U32, step: U32, max: U32)
    requires AddFits(val, step) && max < val
    ensures StepUp(val, step, max) == max < val
  {
  }

  /** Stepping down after stepping up never overshoots the start, and undoes it when nothing was capped. */
  lemma StepDownAfterStepUp(v: U32, s: U32, m: U32)
    requires AddFits(v, s)
    ensures StepDown(StepUp(v, s, m), s) <= v
    ensures v + s <= m ==> StepDown(StepUp(v, s, m), s) == v
  {
  }

  /**
   * Stepping up after stepping down never overflows and never ends above the
   * start when the step down did not saturate; it returns to the start when
   * that start is within the maximum. A saturated step down followed by a
   * step up lands on the step or the maximum, whichever is lower.
   */
  lemma StepUpAfterStepDown(l: U32, s: U32, m: U32)
    ensures AddFits(StepDown(l, s), s)
    ensures s <= l ==> StepUp(StepDown(l, s), s, m) <= l
    ensures s <= l && l <= m ==> StepUp(StepDown(l, s), s, m) == l
    ensures l < s ==> StepUp(StepDown(l, s), s, m) == if s <= m then s else m
  {
  }

  // ---------------------------------------------------------------------
  // Floating-point policy, kept abstract
  // ---------------------------------------------------------------------

  /**
   * The three `f32` computations of the daemon, as uninterpreted functions:
   * `alsToDsp(als, max)` is the display target for an ambient reading,
   * `tenthOf(max)` the truncated tenth of a maximum used by the keyboard
   * policy, and `dim(level)` the truncated product with the configured dim
   * percentage.
   */
  datatype FloatPolicy = FloatPolicy(alsToDsp: (U32, U32) -> U32, tenthOf: U32 -> U32, dim: U32 -> U32)

  /** The one fact assumed of the float code: a truncated tenth never exceeds its argument. */
  ghost predicate TenthWithin(p: FloatPolicy) {
    forall m: U32 :: p.tenthOf(m) <= m
  }

  /** Keyboard target for an ambient reading: a tenth of the maximum in the dark, otherwise off. */
  function AlsToKb(als: U32, kbdMax: U32, p: FloatPolicy): (r: U32)
    ensures als < 5 ==> r == p.tenthOf(kbdMax)
    ensures TenthWithin(p) ==> r <= kbdMax
    ensures r > 0 ==> als < 5
  {
    if als < 5 then p.tenthOf(kbdMax) else 0
  }

  /** At a reading of 5 or more the keyboard light is off, whatever its maximum. */
  lemma AlsToKbBrightIsOff(als: U32, kbdMax: U32, p: FloatPolicy)
    requires 5 <= als
    ensures AlsToKb(als, kbdMax, p) == 0
  {
  }

  // ---------------------------------------------------------------------
  // Device construction
  // ---------------------------------------------------------------------

  /**
   * The device built from a probed maximum and a configured step count; the
   * step is the integer quotient. A step count of zero is a division by zero,
   * which ends the process (`None`).
   */
  function BuildDevice(max: U32, steps: U32): (r: Option<BacklightDevice>)
    ensures r.None? <==> steps == 0
    ensures r.Some? ==> r.value.max == max
    ensures r.Some? ==> r.value.step * steps <= max < (r.value.step + 1) * steps
    ensures r.Some? && max < steps ==> r.value.step == 0
  {
    if steps == 0 then None
    else
      var q := max / steps;
      QuotientBounds(max, steps);
      Some(BacklightDevice(max, q))
  }

  /** Integer division brackets its dividend. */
  lemma QuotientBounds(a: nat, b: nat)
    requires b > 0
    ensures (a / b) * b <= a < (a / b + 1) * b
    ensures a / b <= a
    ensures a < b ==> a / b == 0
  {
    var q := a / b;
    DivisionIdentity(a, b);
    ProductFacts(q, b);
  }

  lemma DivisionIdentity(a: nat, b: nat)
    requires b > 0
    ensures a == (a / b) * b + a % b && 0 <= a % b < b
  {
  }

  lemma ProductFacts(q: nat, b: nat)
    requires b > 0
    ensures (q + 1) * b == q * b + b
    ensures q <= q * b
    ensures q >= 1 ==> b <= q * b
  {
    assert q * b == q * (b - 1) + q;
    if q >= 1 {
      assert q * b == (q - 1) * b + b;
    }
  }

  // ---------------------------------------------------------------------
  // Decimal text format of the brightness and sensor files
  // ---------------------------------------------------------------------

  predicate IsDigit(c: char) {
    '0' <= c <= '9'
  }

  predicate AllDigits(s: string) {
    forall i :: 0 <= i < |s| ==> IsDigit(s[i])
  }

  /** Unicode White_Space, the set that Rust's `char::is_whitespace` tests. */
  predicate IsWhitespace(c: char) {
    var n := c as int;
    (9 <= n <= 13) || n == 0x20 || n == 0x85 || n == 0xA0 || n == 0x1680
    || (0x2000 <= n <= 0x200A) || n == 0x2028 || n == 0x2029 || n == 0x202F
    || n == 0x205F || n == 0x3000
  }

  predicate AllWhitespace(s: string) {
    forall i :: 0 <= i < |s| ==> IsWhitespace(s[i])
  }

  function DigitValue(c: char): (d: nat)
    requires IsDigit(c)
    ensures d < 10
  {
    c as int - '0' as int
  }

  function DigitChar(d: nat): (c: char)
    requires d < 10
    ensures IsDigit(c) && DigitValue(c) == d
  {
    ('0' as int + d) as char
  }

  /** The number a string of decimal digits denotes, most significant digit first. */
  function DecimalValue(s: string): nat
    requires AllDigits(s)
    decreases |s|
  {
    if s == [] then 0 else 10 * DecimalValue(s[..|s| - 1]) + DigitValue(s[|s| - 1])
  }

  /** A text as `to_string` writes it: at least one digit, and no leading zero unless the text is "0". */
  predicate Canonical(s: string) {
    |s| > 0 && AllDigits(s) && (s[0] == '0' ==> |s| == 1)
  }

  /** `u32::to_string`: the text written to a brightness file, with no trailing newline. */
  function ToDecimal(v: nat): (r: string)
    ensures Canonical(r) && DecimalValue(r) == v
    decreases v
  {
    if v < 10 then
      [DigitChar(v)]
    else
      var p := ToDecimal(v / 10);
      var r := p + [DigitChar(v % 10)];
      assert r[..|r| - 1] == p;
      r
  }

  /** `str::trim_right`: drops every trailing whitespace character and nothing else. */
  function TrimEnd(s: string): (r: string)
    ensures r <= s
    ensures forall i :: |r| <= i < |s| ==> IsWhitespace(s[i])
    ensures r == [] || !IsWhitespace(r[|r| - 1])
    decreases |s|
  {
    if s == [] || !IsWhitespace(s[|s| - 1]) then s else TrimEnd(s[..|s| - 1])
  }

  /**
   * `str::parse::<u32>`: one optional leading '+', then one or more ASCII
   * digits (leading zeros allowed) whose value fits in 32 bits.
   */
  function ParseU32(s: string): Option<U32>
  {
    var digits := if |s| > 0 && s[0] == '+' then s[1..] else s;
    match ParseDigits(digits)
    case Some(v) => if v <= U32_MAX then Some(v) else None
    case None => None
  }

  /** The value of a non-empty digit string, read left to right; `None` at the first non-digit. */
  function ParseDigits(s: string): Option<nat>
    decreases |s|
  {
    if s == [] || !IsDigit(s[|s| - 1]) then None
    else if |s| == 1 then Some(DigitValue(s[0]))
    else match ParseDigits(s[..|s| - 1])
      case None => None
      case Some(p) => Some(10 * p + DigitValue(s[|s| - 1]))
  }

  /** The digit reader accepts exactly the non-empty digit strings, with their decimal value. */
  lemma {:induction false} ParseDigitsIsDecimal(s: string)
    ensures ParseDigits(s) == if s != [] && AllDigits(s) then Some(DecimalValue(s)) else None
    decreases |s|
  {
    if s != [] && IsDigit(s[|s| - 1]) {
      var p := s[..|s| - 1];
      ParseDigitsIsDecimal(p);
      if |s| == 1 {
        assert p == [];
      } else if AllDigits(s) {
        assert AllDigits(p);
      } else {
        var i :| 0 <= i < |s| && !IsDigit(s[i]);
        assert p[i] == s[i];
      }
    }
  }

  /** The parse in terms of the decimal value: digits after the optional sign, within the `u32` range. */
  lemma ParseU32IsDecimal(s: string)
    ensures var digits := if |s| > 0 && s[0] == '+' then s[1..] else s;
      ParseU32(s) == if digits != [] && AllDigits(digits) && DecimalValue(digits) <= U32_MAX
                     then Some(DecimalValue(digits)) else None
  {
    ParseDigitsIsDecimal(if |s| > 0 && s[0] == '+' then s[1..] else s);
  }

  /** The value `read_file_to_u32` returns for a file's text. */
  function ReadU32(text: string): Option<U32>
  {
    ParseU32(TrimEnd(text))
  }

  /** A digit string with a non-zero first digit denotes a positive number. */
  lemma {:induction false} LeadingDigitPositive(s: string)
    requires |s| > 0 && AllDigits(s) && s[0] != '0'
    ensures DecimalValue(s) >= 1
    decreases |s|
  {
    if |s| > 1 {
      LeadingDigitPositive(s[..|s| - 1]);
    }
  }

  /** Every canonical text is the one `ToDecimal` writes for its value. */
  lemma {:induction false} CanonicalIsToDecimal(s: string)
    requires Canonical(s)
    ensures ToDecimal(DecimalValue(s)) == s
    decreases |s|
  {
    var last := s[|s| - 1];
    var p := s[..|s| - 1];
    var v := DecimalValue(s);
    assert v == 10 * DecimalValue(p) + DigitValue(last);
    if |s| == 1 {
      assert p == [];
      assert DigitChar(DigitValue(last)) == last;
    } else {
      assert p[0] == s[0];
      LeadingDigitPositive(p);
      CanonicalIsToDecimal(p);
      assert v / 10 == DecimalValue(p) && v % 10 == DigitValue(last);
      assert DigitChar(DigitValue(last)) == last;
      assert s == p + [last];
    }
  }

  /** Trailing whitespace after a text that ends in a non-space is exactly what `TrimEnd` removes. */
  lemma TrimEndOfPadded(s: string, ws: string)
    requires s == [] || !IsWhitespace(s[|s| - 1])
    requires AllWhitespace(ws)
    ensures TrimEnd(s + ws) == s
  {
    var r := TrimEnd(s + ws);
    assert forall i | |s| <= i < |s + ws| :: (s + ws)[i] == ws[i - |s|];
    assert |s| > 0 ==> (s + ws)[|s| - 1] == s[|s| - 1];
    assert |r| == |s|;
    assert r == (s + ws)[..|r|];
  }

  /** What `write_u32_to_file` writes, followed by any trailing whitespace, reads back as the same value. */
  lemma ReadAcceptsTrailingWhitespace(v: U32, ws: string)
    requires AllWhitespace(ws)
    ensures ReadU32(ToDecimal(v) + ws) == Some(v)
  {
    ParseU32IsDecimal(ToDecimal(v));
    var d := ToDecimal(v);
    assert !IsWhitespace(d[|d| - 1]);
    TrimEndOfPadded(d, ws);
  }

  /** The decimal round trip: the text written for a value parses back to it. */
  lemma WriteThenRead(v: U32)
    ensures ReadU32(ToDecimal(v)) == Some(v)
  {
    ReadAcceptsTrailingWhitespace(v, []);
    assert ToDecimal(v) + [] == ToDecimal(v);
  }

  /** A canonical text that parses is exactly the text written for its value: no other spelling is canonical. */
  lemma CanonicalParseIsToDecimal(s: string, v: U32)
    requires Canonical(s) && ParseU32(s) == Some(v)
    ensures s == ToDecimal(v)
  {
    ParseU32IsDecimal(s);
    CanonicalIsToDecimal(s);
  }

  /** A text that is empty or blank once trimmed is rejected. */
  lemma ReadRejectsBlank(text: string)
    requires AllWhitespace(text)
    ensures ReadU32(text) == None
  {
  }

  /** A text that starts with whitespace is rejected: only trailing whitespace is trimmed. */
  lemma ReadRejectsLeadingWhitespace(text: string)
    requires |text| > 0 && IsWhitespace(text[0])
    ensures ReadU32(text) == None
  {
    ParseU32IsDecimal(TrimEnd(text));
    var r := TrimEnd(text);
    if r != [] {
      assert r[0] == text[0];
      assert !IsDigit(r[0]) && r[0] != '+';
    }
  }

  /** Any character other than a digit, apart from one leading '+', makes the parse fail. */
  lemma ParseRejectsNonDigit(s: string, i: nat)
    requires i < |s| && !IsDigit(s[i]) && !(i == 0 && s[0] == '+')
    ensures ParseU32(s) == None
  {
    ParseU32IsDecimal(s);
    if |s| > 0 && s[0] == '+' {
      assert s[1..][i - 1] == s[i];
    }
  }

  /** A digit string whose value exceeds the `u32` range is rejected, not wrapped. */
  lemma ParseRejectsOverflow(s: string)
    requires AllDigits(s) && DecimalValue(s) > U32_MAX
    ensures ParseU32(s) == None
  {
    ParseU32IsDecimal(s);
    if s != [] {
      assert s[0] != '+';
    }
  }

  /** One leading '+' is accepted. */
  lemma ParseAcceptsPlus(v: U32)
    ensures ParseU32(['+'] + ToDecimal(v)) == Some(v)
  {
    ParseU32IsDecimal(['+'] + ToDecimal(v));
    assert (['+'] + ToDecimal(v))[1..] == ToDecimal(v);
  }

  /** A leading zero does not change the value of a digit string. */
  lemma {:induction false} LeadingZeroValue(s: string)
    requires AllDigits(s)
    ensures AllDigits(['0'] + s) && DecimalValue(['0'] + s) == DecimalValue(s)
    decreases |s|
  {
    var z := ['0'] + s;
    if s == [] {
      assert z[..0] == [];
    } else {
      LeadingZeroValue(s[..|s| - 1]);
      assert z[..|z| - 1] == ['0'] + s[..|s| - 1];
    }
  }

  /** Leading zeros are accepted, so parsing is not injective on non-canonical texts. */
  lemma ParseAcceptsLeadingZero(v: U32)
    ensures ParseU32(['0'] + ToDecimal(v)) == Some(v)
  {
    ParseU32IsDecimal(['0'] + ToDecimal(v));
    LeadingZeroValue(ToDecimal(v));
  }
}
