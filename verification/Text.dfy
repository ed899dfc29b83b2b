/** Optional values. */
module Wrappers {

  datatype Option<+T> = None | Some(value: T) {

    function GetOr(default: T): T {
      if Some? then value else default
    }
  }

  /** The first of two optional values that is present. */
  function OrElse<T>(first: Option<T>, second: Option<T>): Option<T> {
    if first.Some? then first else second
  }

  /** Unsigned 32-bit integers, as the gateway stores indexes, attempts and counts. */
  type u32 = x: int | 0 <= x < 0x1_0000_0000

  const U32_MAX: u32 := 0xFFFF_FFFF

  function Min(a: int, b: int): int {
    if a <= b then a else b
  }
}

/** Strings as the gateway handles them: sequences of Unicode scalar values. */
module Text {

  // ---------- white space and trimming ----------

  /** The characters of Unicode property White_Space. */
  predicate IsWhitespace(c: char) {
    || '\U{9}' <= c <= '\U{D}'
    || c == ' ' || c == '\U{85}' || c == '\U{A0}' || c == '\U{1680}'
    || '\U{2000}' <= c <= '\U{200A}'
    || c == '\U{2028}' || c == '\U{2029}' || c == '\U{202F}' || c == '\U{205F}' || c == '\U{3000}'
  }

  function TrimStart(s: string): string {
    if s != "" && IsWhitespace(s[0]) then TrimStart(s[1..]) else s
  }

  function TrimEnd(s: string): string {
    if s != "" && IsWhitespace(s[|s| - 1]) then TrimEnd(s[..|s| - 1]) else s
  }

  function Trim(s: string): string {
    TrimEnd(TrimStart(s))
  }

  /** Text without white space at either end. */
  predicate IsTrimmed(s: string) {
    s != "" ==> !IsWhitespace(s[0]) && !IsWhitespace(s[|s| - 1])
  }

  lemma {:induction false} TrimStartTrims(s: string)
    ensures TrimStart(s) != "" ==> !IsWhitespace(TrimStart(s)[0])
  {
    if s != "" && IsWhitespace(s[0]) {
      TrimStartTrims(s[1..]);
    }
  }

  lemma {:induction false} TrimEndTrims(s: string)
    ensures TrimEnd(s) <= s
    ensures TrimEnd(s) != "" ==> !IsWhitespace(TrimEnd(s)[|TrimEnd(s)| - 1])
  {
    if s != "" && IsWhitespace(s[|s| - 1]) {
      TrimEndTrims(s[..|s| - 1]);
    }
  }

  lemma TrimTrims(s: string)
    ensures IsTrimmed(Trim(s))
  {
    TrimStartTrims(s);
    TrimEndTrims(TrimStart(s));
  }

  // ---------- ASCII case ----------

  function AsciiLower(s: string): string {
    seq(|s|, i requires 0 <= i < |s| => if 'A' <= s[i] <= 'Z' then (s[i] as int + 32) as char else s[i])
  }

  // ---------- decimal numerals ----------

  function Digit(d: nat): (c: char)
    requires d < 10
    ensures '0' <= c <= '9'
  {
    ('0' as int + d) as char
  }

  /** The decimal numeral of a natural number: no sign, no leading zero. */
  function Decimal(n: nat): (s: string)
    ensures s != ""
    ensures forall i :: 0 <= i < |s| ==> '0' <= s[i] <= '9'
  {
    if n < 10 then [Digit(n)] else Decimal(n / 10) + [Digit(n % 10)]
  }

  function IntText(n: int): string {
    if n < 0 then "-" + Decimal(-n) else Decimal(n)
  }

  function NumeralValue(digits: string): nat
    requires forall i :: 0 <= i < |digits| ==> '0' <= digits[i] <= '9'
  {
    if digits == "" then 0
    else 10 * NumeralValue(digits[..|digits| - 1]) + (digits[|digits| - 1] as int - '0' as int)
  }

  lemma {:induction false} DecimalValue(n: nat)
    ensures NumeralValue(Decimal(n)) == n
  {
    if n >= 10 {
      var s := Decimal(n);
      assert s[..|s| - 1] == Decimal(n / 10);
      DecimalValue(n / 10);
    }
  }

  lemma {:induction false} DecimalInjective(a: nat, b: nat)
    requires Decimal(a) == Decimal(b)
    ensures a == b
  {
    var s := Decimal(a);
    assert s[|s| - 1] == Digit(a % 10) == Digit(b % 10);
    if a >= 10 && b >= 10 {
      assert Decimal(a / 10) == s[..|s| - 1] == Decimal(b / 10);
      DecimalInjective(a / 10, b / 10);
    }
  }

  // ---------- taking concatenations apart ----------

  /** A delimiter absent from both heads marks the same cut in both strings. */
  lemma SplitAtDelimiter(delimiter: char, head: string, tail: string, head': string, tail': string)
    requires delimiter !in head && delimiter !in head'
    requires head + [delimiter] + tail == head' + [delimiter] + tail'
    ensures head == head' && tail == tail'
  {
    var s := head + [delimiter] + tail;
    assert s[|head|] == delimiter && s[|head'|] == delimiter;
    assert forall i :: 0 <= i < |head| ==> s[i] == head[i];
    assert forall i :: 0 <= i < |head'| ==> s[i] == head'[i];
    assert head == s[..|head|] == head';
    assert tail == s[|head| + 1..] == tail';
  }

  lemma SamePrefixSameRest(prefix: string, a: string, b: string)
    requires prefix + a == prefix + b
    ensures a == b
  {
    assert a == (prefix + a)[|prefix|..];
    assert b == (prefix + b)[|prefix|..];
  }

  // ---------- delimited fields ----------

  function JoinWith(delimiter: char, fields: seq<string>): string
    requires fields != []
  {
    if |fields| == 1 then fields[0] else fields[0] + [delimiter] + JoinWith(delimiter, fields[1..])
  }

  /** Fields that do not contain the delimiter can be read back from the joined text. */
  lemma {:induction false} JoinWithInjective(delimiter: char, a: seq<string>, b: seq<string>)
    requires |a| == |b| && a != []
    requires forall i :: 0 <= i < |a| ==> delimiter !in a[i] && delimiter !in b[i]
    requires JoinWith(delimiter, a) == JoinWith(delimiter, b)
    ensures a == b
  {
    if |a| > 1 {
      SplitAtDelimiter(delimiter, a[0], JoinWith(delimiter, a[1..]), b[0], JoinWith(delimiter, b[1..]));
      JoinWithInjective(delimiter, a[1..], b[1..]);
      assert a == [a[0]] + a[1..] && b == [b[0]] + b[1..];
    }
  }
}
