/**
 How providers write optional members, and that the lenient readers of the observers give
 back what was written.
 */
module JsonWire {
  import opened Wrappers
  import opened Text
  import opened Json

  // ---------- the ways to write a member ----------

  predicate IsBlank(s: string) {
    forall i :: 0 <= i < |s| ==> IsWhitespace(s[i])
  }

  /** The text between white space. */
  ghost predicate IsPadded(written: string, text: string) {
    exists left: string, right: string :: IsBlank(left) && IsBlank(right) && written == left + text + right
  }

  /** A member that says nothing: absent or null. */
  ghost predicate IsOpen(v: Option<Value>) {
    v.None? || v.value.Null?
  }

  /** A text that is trimmed and not empty, written with or without white space around it. */
  ghost predicate SaysText(v: Option<Value>, text: Option<string>) {
    if text.None? then IsOpen(v)
    else text.value != "" && IsTrimmed(text.value) && v.Some? && v.value.Str? && IsPadded(v.value.text, text.value)
  }

  /** A u32, written as a JSON integer or as padded decimal text. */
  ghost predicate SaysNumber(v: Option<Value>, n: Option<u32>) {
    if n.None? then IsOpen(v)
    else v == Some(Int(n.value)) || (v.Some? && v.value.Str? && IsPadded(v.value.text, Decimal(n.value)))
  }

  /** A string that counts character by character, white space included. */
  ghost predicate SaysVerbatim(v: Option<Value>, text: Option<string>) {
    if text.None? then IsOpen(v) else v == Some(Str(text.value))
  }

  // ---------- reading it back ----------

  lemma {:induction false} TrimStartPadded(left: string, rest: string)
    requires IsBlank(left) && rest != "" && !IsWhitespace(rest[0])
    ensures TrimStart(left + rest) == rest
  {
    if left == "" {
      assert left + rest == rest;
    } else {
      assert (left + rest)[1..] == left[1..] + rest;
      TrimStartPadded(left[1..], rest);
    }
  }

  lemma {:induction false} TrimEndPadded(text: string, right: string)
    requires IsBlank(right) && text != "" && !IsWhitespace(text[|text| - 1])
    ensures TrimEnd(text + right) == text
  {
    if right == "" {
      assert text + right == text;
    } else {
      var n := |right| - 1;
      assert (text + right)[..|text| + n] == text + right[..n];
      TrimEndPadded(text, right[..n]);
    }
  }

  lemma TrimPadded(written: string, text: string)
    requires IsPadded(written, text) && text != "" && IsTrimmed(text)
    ensures Trim(written) == text
  {
    var left, right :| IsBlank(left) && IsBlank(right) && written == left + text + right;
    assert written == left + (text + right);
    TrimStartPadded(left, text + right);
    TrimEndPadded(text, right);
  }

  lemma ReadsText(v: Option<Value>, text: Option<string>)
    requires SaysText(v, text)
    ensures OptionalString(v) == text
  {
    if text.Some? {
      TrimPadded(v.value.text, text.value);
    }
  }

  lemma DecimalIsTrimmed(n: nat)
    ensures Decimal(n) != "" && IsTrimmed(Decimal(n)) && Decimal(n)[0] != '+'
  {
  }

  lemma ReadsNumber(v: Option<Value>, n: Option<u32>)
    requires SaysNumber(v, n)
    ensures OptionalU32(v) == n
  {
    if n.Some? && v.value.Str? {
      DecimalIsTrimmed(n.value);
      TrimPadded(v.value.text, Decimal(n.value));
      DecimalValue(n.value);
    }
  }

  // ---------- a printer ----------

  /** An object from optional members; those that are absent are left out. */
  function Members(keys: seq<string>, member: string -> Option<Value>): map<string, Value> {
    map k | k in keys && member(k).Some? :: member(k).value
  }

  function TextMember(text: Option<string>): Option<Value> {
    if text.Some? then Some(Str(text.value)) else None
  }

  function NumberMember(n: Option<u32>): Option<Value> {
    if n.Some? then Some(Int(n.value)) else None
  }

  /** A text that survives trimming. */
  predicate IsProper(text: Option<string>) {
    text.Some? ==> text.value != "" && IsTrimmed(text.value)
  }

  lemma PrintedText(text: Option<string>)
    requires IsProper(text)
    ensures SaysText(TextMember(text), text)
  {
    if text.Some? {
      assert IsBlank("") && text.value == "" + text.value + "";
    }
  }
}
