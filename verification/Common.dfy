/** Results, error codes and small text functions shared by the models. */
module Common {

  datatype Option<+T> = None | Some(value: T)

  datatype Result<+T> = Ok(value: T) | Err(error: Failure)

  /** The categories of `samdebug_core::ErrorCategory` that the modelled code produces. */
  datatype Category = Command | Tool | Project | Connection | Debugger | Authorization | Interrupted

  /** The stable error codes of the modelled code; `Other` stands for a code that nothing here inspects. */
  datatype Code =
    | MI_RECORD_INVALID | MI_TOKEN_INVALID | MI_UTF8_INVALID | MI_RECORD_TOO_LARGE | MI_RECORD_TRUNCATED
    | GDB_EXITED | GDB_READ_FAILED | GDB_WRITE_FAILED | GDB_COMMAND_TIMEOUT | GDB_STOP_TIMEOUT
    | GDB_TARGET_DISCONNECTED | GDB_COMMAND_INVALID | GDB_TOKEN_EXHAUSTED
    | GDB_COMMAND_FAILED | GDB_RESPONSE_INVALID
    | INTERRUPTED | INVALID_SESSION_STATE | SESSION_GENERATION_INVALID | SESSION_GENERATION_EXHAUSTED
    | PROBE_SERIAL_INVALID | PROBE_DISCONNECTED | TARGET_UNREACHABLE | TARGET_HALT_UNCONFIRMED
    | SESSION_PROBE_MISSING | AUTHORIZATION_REJECTED | FIRMWARE_VERIFY_FAILED
    | OPENOCD_EXITED | DEBUG_TRANSPORT_FAILED
    | Other(name: string)

  datatype Failure = Failure(category: Category, code: Code)

  const U64_MAX := 0xFFFF_FFFF_FFFF_FFFF

  function Min(a: nat, b: nat): nat {
    if a < b then a else b
  }

  /** Index of the first `c` in `s`, or `|s|` when there is none. */
  function FirstIndex(s: string, c: char): (i: nat)
    ensures i <= |s|
    ensures i < |s| ==> s[i] == c
    ensures forall j :: 0 <= j < i ==> s[j] != c
  {
    if s == [] || s[0] == c then 0 else 1 + FirstIndex(s[1..], c)
  }

  /** `FirstIndex` is the only index with its property. */
  lemma FirstIndexAt(s: string, c: char, i: nat)
    requires i <= |s|
    requires i < |s| ==> s[i] == c
    requires forall j :: 0 <= j < i ==> s[j] != c
    ensures FirstIndex(s, c) == i
  {}

  lemma AppendEmpty<T>(s: seq<T>)
    ensures s + [] == s
  {}

  lemma AppendAssociates<T>(a: seq<T>, b: seq<T>, c: seq<T>)
    ensures (a + b) + c == a + (b + c)
  {}

  /** `char::is_whitespace`. */
  predicate IsWhitespace(c: char) {
    var n := c as int;
    0x09 <= n <= 0x0D || n == 0x20 || n == 0x85 || n == 0xA0 || n == 0x1680 || 0x2000 <= n <= 0x200A
    || n == 0x2028 || n == 0x2029 || n == 0x202F || n == 0x205F || n == 0x3000
  }

  predicate IsDigit(c: char) {
    '0' <= c <= '9'
  }

  function DigitValue(c: char): (d: nat)
    requires IsDigit(c)
    ensures d <= 9
  {
    c as int - '0' as int
  }

  function DigitChar(d: nat): (c: char)
    requires d <= 9
    ensures IsDigit(c) && DigitValue(c) == d
  {
    ('0' as int + d) as char
  }

  /** Decimal rendering without leading zeros, as `to_string` gives it. */
  function Decimal(n: nat): (s: string)
    ensures s != [] && forall i :: 0 <= i < |s| ==> IsDigit(s[i])
  {
    if n < 10 then [DigitChar(n)] else Decimal(n / 10) + [DigitChar(n % 10)]
  }

  /** The number a string of digits denotes. */
  function DecimalValue(s: string): nat
    requires forall i :: 0 <= i < |s| ==> IsDigit(s[i])
  {
    if s == [] then 0 else 10 * DecimalValue(s[..|s| - 1]) + DigitValue(s[|s| - 1])
  }

  lemma {:induction false} DecimalRoundTrip(n: nat)
    ensures DecimalValue(Decimal(n)) == n
  {
    if n >= 10 {
      DecimalRoundTrip(n / 10);
      assert Decimal(n)[..|Decimal(n)| - 1] == Decimal(n / 10);
    }
  }

  lemma {:induction false} DecimalInjective(m: nat, n: nat)
    requires Decimal(m) == Decimal(n)
    ensures m == n
  {
    DecimalRoundTrip(m);
    DecimalRoundTrip(n);
  }

  /** Concatenation of a list of strings. */
  function Concat(parts: seq<string>): string {
    if parts == [] then [] else parts[0] + Concat(parts[1..])
  }

  lemma {:induction false} ConcatAppend(a: seq<string>, b: seq<string>)
    ensures Concat(a + b) == Concat(a) + Concat(b)
  {
    if a == [] {
      assert a + b == b;
    } else {
      assert (a + b)[1..] == a[1..] + b;
      ConcatAppend(a[1..], b);
    }
  }

  /** `Lower` and `Contains` are `to_ascii_lowercase` and `str::contains`. */
  function LowerChar(c: char): char {
    if 'A' <= c <= 'Z' then (c as int + 32) as char else c
  }

  function Lower(s: string): (t: string)
    ensures |t| == |s| && forall i :: 0 <= i < |s| ==> t[i] == LowerChar(s[i])
  {
    seq(|s|, i requires 0 <= i < |s| => LowerChar(s[i]))
  }

  predicate Contains(s: string, part: string) {
    exists i :: 0 <= i <= |s| && OccursAt(s, part, i)
  }

  predicate OccursAt(s: string, part: string, i: nat) {
    i + |part| <= |s| && s[i..i + |part|] == part
  }

  /** Unsigned `FromStr` in base 10 or 16: an optional plus sign, at least one digit, no overflow. */
  function ParseUnsigned(s: string, radix: nat, max: nat): Option<nat>
    requires radix == 10 || radix == 16
  {
    var digits := if s != [] && s[0] == '+' then s[1..] else s;
    if digits == [] then None
    else
      var n := RadixValue(digits, radix);
      if n.Some? && n.value <= max then n else None
  }

  function RadixDigit(c: char, radix: nat): Option<nat> {
    if IsDigit(c) then Some(DigitValue(c))
    else if radix == 16 && 'a' <= c <= 'f' then Some(c as int - 'a' as int + 10)
    else if radix == 16 && 'A' <= c <= 'F' then Some(c as int - 'A' as int + 10)
    else None
  }

  function RadixValue(s: string, radix: nat): Option<nat> {
    if s == [] then Some(0)
    else
      match (RadixValue(s[..|s| - 1], radix), RadixDigit(s[|s| - 1], radix))
      case (Some(high), Some(low)) => Some(radix * high + low)
      case _ => None
  }
}
