/** Well-formed UTF-8 as `std::str::from_utf8` accepts it (table 3-7 of the Unicode standard).
    A byte is a character below 256. */
module Utf8 {

  predicate Continuation(c: char) {
    0x80 <= c as int <= 0xBF
  }

  /** Length of the well-formed character at the head of `s`; zero when there is none. */
  function HeadLength(s: string): (n: nat)
    ensures n <= |s|
    ensures n == 1 ==> s[0] as int < 0x80
    ensures n > 1 ==> forall i :: 0 <= i < n ==> 0x80 <= s[i] as int < 256
  {
    if s == [] then 0 else
    var b := s[0] as int;
    if b < 0x80 then 1
    else if 0xC2 <= b <= 0xDF && |s| >= 2 && Continuation(s[1]) then 2
    else if |s| >= 3 && Continuation(s[1]) && Continuation(s[2])
            && (0xE1 <= b <= 0xEC || 0xEE <= b <= 0xEF
                || (b == 0xE0 && s[1] as int >= 0xA0) || (b == 0xED && s[1] as int <= 0x9F)) then 3
    else if |s| >= 4 && Continuation(s[1]) && Continuation(s[2]) && Continuation(s[3])
            && (0xF1 <= b <= 0xF3 || (b == 0xF0 && s[1] as int >= 0x90) || (b == 0xF4 && s[1] as int <= 0x8F)) then 4
    else 0
  }

  predicate Valid(s: string) {
    s == [] || (HeadLength(s) > 0 && Valid(s[HeadLength(s)..]))
  }

  predicate Ascii(s: string) {
    forall i :: 0 <= i < |s| ==> s[i] as int < 0x80
  }

  lemma {:induction false} AsciiIsValid(s: string)
    requires Ascii(s)
    ensures Valid(s)
  {
    if s != [] {
      AsciiIsValid(s[1..]);
    }
  }

  lemma {:induction false} Append(a: string, b: string)
    requires Valid(a) && Valid(b)
    ensures Valid(a + b)
  {
    if a == [] {
      assert a + b == b;
    } else {
      var n := HeadLength(a);
      assert forall i :: 0 <= i < |a| ==> (a + b)[i] == a[i];
      assert HeadLength(a + b) == n;
      assert (a + b)[n..] == a[n..] + b;
      Append(a[n..], b);
    }
  }

  // ---- What it accepts ----

  /** A Unicode scalar value. */
  predicate Scalar(p: nat) {
    p <= 0x10FFFF && !(0xD800 <= p <= 0xDFFF)
  }

  function Byte(n: nat): char
    requires n < 256
  {
    n as char
  }

  /** The bytes of a scalar value. */
  function Encoded(p: nat): string
    requires Scalar(p)
  {
    if p < 0x80 then [Byte(p)]
    else if p < 0x800 then [Byte(0xC0 + p / 64), Byte(0x80 + p % 64)]
    else if p < 0x10000 then [Byte(0xE0 + p / 4096), Byte(0x80 + p / 64 % 64), Byte(0x80 + p % 64)]
    else [Byte(0xF0 + p / 262144), Byte(0x80 + p / 4096 % 64), Byte(0x80 + p / 64 % 64), Byte(0x80 + p % 64)]
  }

  predicate Scalars(points: seq<nat>) {
    forall i :: 0 <= i < |points| ==> Scalar(points[i])
  }

  function EncodedAll(points: seq<nat>): string
    requires Scalars(points)
  {
    if points == [] then [] else Encoded(points[0]) + EncodedAll(points[1..])
  }

  /** The scalar value of the character at the head. */
  lemma {:induction false} HeadIsEncoded(s: string) returns (p: nat)
    requires HeadLength(s) > 0
    ensures Scalar(p) && s[..HeadLength(s)] == Encoded(p)
  {
    var b := s[0] as int;
    match HeadLength(s) {
      case 1 => p := b;
      case 2 => p := TwoBytes(b - 0xC0, s[1] as int - 0x80);
      case 3 => p := ThreeBytes(b - 0xE0, s[1] as int - 0x80, s[2] as int - 0x80);
      case _ => p := FourBytes(b - 0xF0, s[1] as int - 0x80, s[2] as int - 0x80, s[3] as int - 0x80);
    }
  }

  lemma TwoBytes(a: nat, b: nat) returns (p: nat)
    requires 2 <= a < 32 && b < 64
    ensures 0x80 <= p < 0x800 && p / 64 == a && p % 64 == b
  {
    p := a * 64 + b;
  }

  lemma ThreeBytes(a: nat, b: nat, c: nat) returns (p: nat)
    requires a < 16 && b < 64 && c < 64 && (a == 0 ==> b >= 32) && (a == 13 ==> b < 32)
    ensures 0x800 <= p < 0x10000 && Scalar(p) && p / 4096 == a && p / 64 % 64 == b && p % 64 == c
  {
    p := a * 4096 + b * 64 + c;
  }

  lemma FourBytes(a: nat, b: nat, c: nat, d: nat) returns (p: nat)
    requires a <= 4 && b < 64 && c < 64 && d < 64 && (a == 0 ==> b >= 16) && (a == 4 ==> b < 16)
    ensures 0x10000 <= p && Scalar(p) && p / 262144 == a && p / 4096 % 64 == b && p / 64 % 64 == c && p % 64 == d
  {
    var q := a * 4096 + b * 64 + c;
    p := q * 64 + d;
    assert p / 64 == q && p / 4096 == q / 64 == a * 64 + b;
  }

  lemma {:induction false} EncodedHead(p: nat, rest: string)
    requires Scalar(p)
    ensures HeadLength(Encoded(p) + rest) == |Encoded(p)|
  {
    var e := Encoded(p);
    var s := e + rest;
    assert forall i :: 0 <= i < |e| ==> s[i] == e[i];
    LeadByte(p);
    hide Encoded;
  }

  lemma LeadByte(p: nat)
    requires Scalar(p)
    ensures var e, b := Encoded(p), Encoded(p)[0] as int;
            && 1 <= |e| <= 4 && (forall i :: 1 <= i < |e| ==> Continuation(e[i]))
            && (|e| == 1 ==> b < 0x80)
            && (|e| == 2 ==> 0xC2 <= b <= 0xDF)
            && (|e| == 3 ==> 0xE0 <= b <= 0xEF && (b == 0xE0 ==> e[1] as int >= 0xA0)
                             && (b == 0xED ==> e[1] as int <= 0x9F))
            && (|e| == 4 ==> 0xF0 <= b <= 0xF4 && (b == 0xF0 ==> e[1] as int >= 0x90)
                             && (b == 0xF4 ==> e[1] as int <= 0x8F))
  {}

  /** The encodings of sequences of scalar values, and nothing else, are well-formed. */
  lemma {:induction false} EncodingIsValid(points: seq<nat>)
    requires Scalars(points)
    ensures Valid(EncodedAll(points))
  {
    if points != [] {
      var rest := EncodedAll(points[1..]);
      EncodedHead(points[0], rest);
      EncodingIsValid(points[1..]);
      assert (Encoded(points[0]) + rest)[|Encoded(points[0])|..] == rest;
    }
  }

  lemma {:induction false} ValidIsEncoding(s: string) returns (points: seq<nat>)
    requires Valid(s)
    ensures Scalars(points) && EncodedAll(points) == s
  {
    if s == [] {
      points := [];
    } else {
      hide HeadLength;
      hide Encoded;
      var n := HeadLength(s);
      var p := HeadIsEncoded(s);
      var rest := ValidIsEncoding(s[n..]);
      points := [p] + rest;
      assert points[1..] == rest;
      assert s == s[..n] + s[n..];
    }
  }

  ghost predicate IsEncoding(s: string) {
    exists points :: Scalars(points) && EncodedAll(points) == s
  }

  /** What is accepted is exactly what encodes a sequence of scalar values. */
  lemma {:induction false} ValidIff(s: string)
    ensures Valid(s) <==> IsEncoding(s)
  {
    if Valid(s) {
      var points := ValidIsEncoding(s);
      assert EncodedAll(points) == s;
    }
    if points :| Scalars(points) && EncodedAll(points) == s {
      EncodingIsValid(points);
    }
  }
}
