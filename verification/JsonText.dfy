/**
 The JSON text whose bytes JsonSize counts: compact, with the escapes of serde_json, and with
 the keys of an object in any order.
 */
module JsonText {
  import opened Text
  import opened Json
  import opened JsonSize

  // ---------- UTF-8 ----------

  function Utf8Bytes(c: char): nat {
    if c < '\U{80}' then 1 else if c < '\U{800}' then 2 else if c < '\U{10000}' then 3 else 4
  }

  function Utf8Size(s: string): nat {
    if s == "" then 0 else Utf8Bytes(s[0]) + Utf8Size(s[1..])
  }

  lemma {:induction false} Utf8Append(a: string, b: string)
    ensures Utf8Size(a + b) == Utf8Size(a) + Utf8Size(b)
  {
    if a == "" {
      assert a + b == b;
    } else {
      assert (a + b)[1..] == a[1..] + b;
      Utf8Append(a[1..], b);
    }
  }

  lemma {:induction false} AsciiSize(s: string)
    requires forall i :: 0 <= i < |s| ==> s[i] < '\U{80}'
    ensures Utf8Size(s) == |s|
  {
    if s != "" {
      AsciiSize(s[1..]);
    }
  }

  // ---------- the text ----------

  function Hex(d: nat): char
    requires d < 16
  {
    "0123456789abcdef"[d]
  }

  function Escape(c: char): string {
    if c == '"' then "\\\""
    else if c == '\\' then "\\\\"
    else if c == '\U{8}' then "\\b"
    else if c == '\t' then "\\t"
    else if c == '\n' then "\\n"
    else if c == '\U{C}' then "\\f"
    else if c == '\r' then "\\r"
    else if c < ' ' then "\\u00" + [Hex(c as int / 16), Hex(c as int % 16)]
    else [c]
  }

  function EscapeAll(s: string): string {
    if s == "" then "" else EscapeAll(s[..|s| - 1]) + Escape(s[|s| - 1])
  }

  function Quoted(s: string): string {
    "\"" + EscapeAll(s) + "\""
  }

  /** A listing of a set: each element once. */
  ghost predicate Lists(keys: seq<string>, all: set<string>) {
    (forall k :: k in keys <==> k in all) && forall i, j :: 0 <= i < j < |keys| ==> keys[i] != keys[j]
  }

  ghost predicate IsOrder(order: set<string> -> seq<string>) {
    forall all :: Lists(order(all), all)
  }

  function TextOf(value: Value, order: set<string> -> seq<string>): string
    decreases value, 1
  {
    match value
    case Null => "null"
    case Bool(flag) => if flag then "true" else "false"
    case Int(number) => IntText(number)
    case Float(numeral) => numeral
    case Str(text) => Quoted(text)
    case Arr(items) => "[" + ItemsText(items, order) + "]"
    case Obj(fields) => "{" + EntriesText(value, order(fields.Keys), order) + "}"
  }

  function ItemsText(items: seq<Value>, order: set<string> -> seq<string>): string
    decreases items, 1
  {
    if items == [] then ""
    else if |items| == 1 then TextOf(items[0], order)
    else TextOf(items[0], order) + "," + ItemsText(items[1..], order)
  }

  function EntriesText(value: Value, keys: seq<string>, order: set<string> -> seq<string>): string
    requires value.Obj?
    decreases value, 0, |keys|
  {
    if keys == [] then ""
    else
      (if keys[0] in value.fields then Quoted(keys[0]) + ":" + TextOf(value.fields[keys[0]], order) else "")
      + (if |keys| == 1 then "" else ",")
      + EntriesText(value, keys[1..], order)
  }

  /** Numbers that are no integers are written in ASCII. */
  predicate HasAsciiNumerals(value: Value) {
    match value
    case Float(numeral) => forall i :: 0 <= i < |numeral| ==> numeral[i] < '\U{80}'
    case Arr(items) => forall i :: 0 <= i < |items| ==> HasAsciiNumerals(items[i])
    case Obj(fields) => forall k :: k in fields ==> HasAsciiNumerals(fields[k])
    case _ => true
  }

  // ---------- its size ----------

  lemma EscapeSize(c: char)
    ensures Utf8Size(Escape(c)) == CharSize(c)
  {
    if |Escape(c)| == 1 {
      assert Escape(c)[1..] == "";
    } else {
      AsciiSize(Escape(c));
    }
  }

  lemma {:induction false} EscapeAllSize(s: string, n: nat)
    requires n <= |s|
    ensures Utf8Size(EscapeAll(s[..n])) == CharsSize(s, n)
  {
    if n > 0 {
      EscapeAllSize(s, n - 1);
      assert s[..n][..n - 1] == s[..n - 1];
      Utf8Append(EscapeAll(s[..n - 1]), Escape(s[n - 1]));
      EscapeSize(s[n - 1]);
    }
  }

  lemma QuotedSize(s: string)
    ensures Utf8Size(Quoted(s)) == StrSize(s)
  {
    EscapeAllSize(s, |s|);
    assert s[..|s|] == s;
    Utf8Append("\"" + EscapeAll(s), "\"");
    Utf8Append("\"", EscapeAll(s));
    AsciiSize("\"");
  }

  lemma NumberSize(n: int)
    ensures Utf8Size(IntText(n)) == |IntText(n)|
  {
    AsciiSize(IntText(n));
  }

  lemma Enclosed(open: string, inner: string, close: string)
    requires |open| == |close| == 1 && open[0] < '\U{80}' && close[0] < '\U{80}'
    ensures Utf8Size(open + inner + close) == Utf8Size(inner) + 2
  {
    Utf8Append(open + inner, close);
    Utf8Append(open, inner);
    AsciiSize(open);
    AsciiSize(close);
  }

  lemma Joined(a: string, sep: string, b: string)
    requires |sep| == 1 && sep[0] < '\U{80}'
    ensures Utf8Size(a + sep + b) == Utf8Size(a) + 1 + Utf8Size(b)
  {
    Utf8Append(a + sep, b);
    Utf8Append(a, sep);
    AsciiSize(sep);
  }

  lemma ScalarSize(value: Value, order: set<string> -> seq<string>)
    requires !value.Arr? && !value.Obj? && HasAsciiNumerals(value)
    ensures Utf8Size(TextOf(value, order)) == Size(value)
  {
    match value
    case Null => AsciiSize("null");
    case Bool(flag) =>
      AsciiSize("true");
      AsciiSize("false");
    case Int(number) => NumberSize(number);
    case Float(numeral) => AsciiSize(numeral);
    case Str(text) => QuotedSize(text);
    case _ =>
  }

  /** The count is the number of UTF-8 bytes of the text, in whatever order keys are written. */
  lemma {:induction false} SizeIsTextLength(value: Value, order: set<string> -> seq<string>)
    requires IsOrder(order) && HasAsciiNumerals(value)
    ensures Utf8Size(TextOf(value, order)) == Size(value)
    decreases value, 2
  {
    if value.Arr? {
      Enclosed("[", ItemsText(value.items, order), "]");
      ItemsTextSize(value.items, order);
    } else if value.Obj? {
      ObjectTextSize(value, order);
    } else {
      ScalarSize(value, order);
    }
  }

  lemma {:induction false} ObjectTextSize(value: Value, order: set<string> -> seq<string>)
    requires IsOrder(order) && value.Obj? && HasAsciiNumerals(value)
    ensures Utf8Size(TextOf(value, order)) == Size(value)
    decreases value, 1
  {
    var keys := order(value.fields.Keys);
    assert Lists(keys, value.fields.Keys);
    Enclosed("{", EntriesText(value, keys, order), "}");
    if keys == [] {
      NothingListed(value.fields);
    } else {
      assert keys[0] in value.fields.Keys;
      EntriesTextSize(value, keys, order);
      AllSizes(value, keys);
    }
  }

  lemma NothingListed(fields: map<string, Value>)
    requires Lists([], fields.Keys)
    ensures fields == map[]
  {
  }

  lemma AllSizes(value: Value, keys: seq<string>)
    requires value.Obj? && Lists(keys, value.fields.Keys)
    ensures SizesOf(value, keys) == EntrySizes(value)
  {
  }

  lemma {:induction false} ItemsTextSize(items: seq<Value>, order: set<string> -> seq<string>)
    requires IsOrder(order) && forall i :: 0 <= i < |items| ==> HasAsciiNumerals(items[i])
    ensures Utf8Size(ItemsText(items, order)) == if items == [] then 0 else ItemsSize(items) - 1
    decreases items, 1
  {
    if items != [] {
      SizeIsTextLength(items[0], order);
      ItemsTextSize(items[1..], order);
      Joined(TextOf(items[0], order), ",", ItemsText(items[1..], order));
    }
  }

  ghost function SizesOf(value: Value, keys: seq<string>): map<string, nat>
    requires value.Obj? && forall k :: k in keys ==> k in value.fields
  {
    map k | k in keys :: EntrySize(k, value.fields[k])
  }

  lemma EntryTextSize(key: string, text: string, value: Value)
    requires Utf8Size(text) == Size(value)
    ensures Utf8Size(Quoted(key) + ":" + text) == EntrySize(key, value) - 1
  {
    QuotedSize(key);
    Joined(Quoted(key), ":", text);
  }

  lemma SizesWithoutFirst(value: Value, keys: seq<string>)
    requires value.Obj? && keys != [] && forall k :: k in keys ==> k in value.fields
    requires forall i, j :: 0 <= i < j < |keys| ==> keys[i] != keys[j]
    ensures Total(SizesOf(value, keys)) == EntrySize(keys[0], value.fields[keys[0]]) + Total(SizesOf(value, keys[1..]))
  {
    TotalWithout(SizesOf(value, keys), keys[0]);
    assert SizesOf(value, keys) - {keys[0]} == SizesOf(value, keys[1..]);
  }

  lemma {:induction false} EntriesTextSize(value: Value, keys: seq<string>, order: set<string> -> seq<string>)
    requires IsOrder(order) && value.Obj? && HasAsciiNumerals(value)
    requires keys != [] && (forall k :: k in keys ==> k in value.fields)
    requires forall i, j :: 0 <= i < j < |keys| ==> keys[i] != keys[j]
    ensures Utf8Size(EntriesText(value, keys, order)) == Total(SizesOf(value, keys)) - 1
    decreases value, 0, |keys|
  {
    var k, rest := keys[0], keys[1..];
    var entry := Quoted(k) + ":" + TextOf(value.fields[k], order);
    assert Utf8Size(entry) == EntrySize(k, value.fields[k]) - 1 by {
      SizeIsTextLength(value.fields[k], order);
      EntryTextSize(k, TextOf(value.fields[k], order), value.fields[k]);
    }
    SizesWithoutFirst(value, keys);
    if rest == [] {
      assert SizesOf(value, rest) == map[];
      assert EntriesText(value, keys, order) == entry;
    } else {
      EntriesTextSize(value, rest, order);
      Joined(entry, ",", EntriesText(value, rest, order));
    }
  }
}
