/**
 How many bytes a JSON value takes when it is written without white space, as the metadata
 limit counts them (serde_json::to_vec in agent/service.rs).
 */
module JsonSize {
  import opened Text
  import opened Json

  // ---------- strings ----------

  /** Bytes of one character in a JSON string: a short escape, a numeric escape or its UTF-8 encoding. */
  function CharSize(c: char): (n: nat)
    ensures 1 <= n <= 6
  {
    if c == '"' || c == '\\' || c == '\U{8}' || c == '\t' || c == '\n' || c == '\U{C}' || c == '\r' then 2
    else if c < ' ' then 6
    else if c < '\U{80}' then 1
    else if c < '\U{800}' then 2
    else if c < '\U{10000}' then 3
    else 4
  }

  /** Bytes of the first n characters. */
  function CharsSize(s: string, n: nat): nat
    requires n <= |s|
    decreases n
  {
    if n == 0 then 0 else CharsSize(s, n - 1) + CharSize(s[n - 1])
  }

  function StrSize(s: string): nat {
    CharsSize(s, |s|) + 2
  }

  lemma {:induction false} CharsSizeBound(s: string, n: nat)
    requires n <= |s|
    ensures n <= CharsSize(s, n) <= 6 * n
  {
    if n > 0 {
      CharsSizeBound(s, n - 1);
    }
  }

  predicate IsPlain(c: char) {
    ' ' <= c < '\U{80}' && c != '"' && c != '\\'
  }

  lemma {:induction false} SameWeights(s: string, n: nat, weight: nat)
    requires n <= |s|
    requires forall i :: 0 <= i < n ==> CharSize(s[i]) == weight
    ensures CharsSize(s, n) == n * weight
  {
    if n > 0 {
      SameWeights(s, n - 1, weight);
    }
  }

  predicate IsPlainText(s: string) {
    forall c :: c in s ==> IsPlain(c)
  }

  /** Text that needs no escapes takes one byte a character. */
  lemma PlainSize(s: string)
    requires IsPlainText(s)
    ensures StrSize(s) == |s| + 2
  {
    assert forall i :: 0 <= i < |s| ==> IsPlain(s[i]);
    SameWeights(s, |s|, 1);
  }

  // ---------- numbers ----------

  function Power10(k: nat): nat {
    if k == 0 then 1 else 10 * Power10(k - 1)
  }

  lemma {:induction false} DecimalLength(n: nat, k: nat)
    requires k >= 1 && n < Power10(k)
    ensures |Decimal(n)| <= k
    ensures n >= Power10(k - 1) ==> |Decimal(n)| == k
  {
    if n >= 10 {
      DecimalLength(n / 10, k - 1);
    }
  }

  // ---------- values ----------

  ghost function Total(sizes: map<string, nat>): nat {
    if sizes == map[] then 0 else var k :| k in sizes; sizes[k] + Total(sizes - {k})
  }

  /** The sum does not depend on the order in which the entries are taken. */
  lemma {:induction false} TotalWithout(sizes: map<string, nat>, k: string)
    requires k in sizes
    ensures Total(sizes) == sizes[k] + Total(sizes - {k})
    decreases |sizes|
  {
    var j :| j in sizes && Total(sizes) == sizes[j] + Total(sizes - {j});
    if j != k {
      TotalWithout(sizes - {j}, k);
      TotalWithout(sizes - {k}, j);
      assert sizes - {j} - {k} == sizes - {k} - {j};
    }
  }

  /** Braces or brackets take one byte each; every entry but the last brings a comma. */
  ghost function Size(value: Value): nat
    decreases value, 1
  {
    match value
    case Null => 4
    case Bool(flag) => if flag then 4 else 5
    case Int(number) => |IntText(number)|
    case Float(numeral) => |numeral|
    case Str(text) => StrSize(text)
    case Arr(items) => if items == [] then 2 else 1 + ItemsSize(items)
    case Obj(fields) => if fields == map[] then 2 else 1 + Total(EntrySizes(value))
  }

  ghost function ItemsSize(items: seq<Value>): nat
    decreases items, 1
  {
    if items == [] then 0 else Size(items[0]) + 1 + ItemsSize(items[1..])
  }

  /** Each entry with its key, its colon and the comma or brace that follows it. */
  ghost function EntrySizes(value: Value): map<string, nat>
    requires value.Obj?
    decreases value, 0
  {
    map k | k in value.fields :: StrSize(k) + 1 + Size(value.fields[k]) + 1
  }

  ghost function EntrySize(key: string, value: Value): nat {
    StrSize(key) + 1 + Size(value) + 1
  }

  /** The opening brace and all entries; an object without entries still has its closing brace to come. */
  ghost function FieldsSize(fields: map<string, Value>): nat {
    1 + Total(EntrySizes(Obj(fields)))
  }

  lemma NoFields()
    ensures FieldsSize(map[]) == 1
  {
    assert EntrySizes(Obj(map[])) == map[];
  }

  lemma SomeFields(fields: map<string, Value>, key: string)
    requires key in fields
    ensures Size(Obj(fields)) == FieldsSize(fields)
  {
  }

  lemma TotalInsert(sizes: map<string, nat>, key: string, n: nat)
    requires key !in sizes
    ensures Total(sizes[key := n]) == Total(sizes) + n
  {
    TotalWithout(sizes[key := n], key);
    assert sizes[key := n] - {key} == sizes;
  }

  /** A new entry adds its own size and nothing else. */
  lemma AddField(fields: map<string, Value>, key: string, value: Value)
    requires key !in fields
    ensures FieldsSize(fields[key := value]) == FieldsSize(fields) + EntrySize(key, value)
  {
    assert EntrySizes(Obj(fields[key := value])) == EntrySizes(Obj(fields))[key := EntrySize(key, value)];
    TotalInsert(EntrySizes(Obj(fields)), key, EntrySize(key, value));
  }

  lemma RemoveField(fields: map<string, Value>, key: string)
    requires key in fields
    ensures FieldsSize(fields) == FieldsSize(fields - {key}) + EntrySize(key, fields[key])
  {
    AddField(fields - {key}, key, fields[key]);
    assert (fields - {key})[key := fields[key]] == fields;
  }

  /** Setting an entry takes away the one that was there. */
  lemma SetField(fields: map<string, Value>, key: string, value: Value)
    ensures FieldsSize(fields[key := value])
         == FieldsSize(fields) - (if key in fields then EntrySize(key, fields[key]) else 0) + EntrySize(key, value)
  {
    if key in fields {
      RemoveField(fields, key);
      AddField(fields - {key}, key, value);
      assert (fields - {key})[key := value] == fields[key := value];
    } else {
      AddField(fields, key, value);
    }
  }

  /** A measure of objects that grows by each new entry: plain key, quotes, colon, comma and value. */
  ghost predicate GrowsByEntry(measure: map<string, Value> -> nat, size: Value -> nat) {
    forall m: map<string, Value>, k: string, v: Value {:trigger measure(m[k := v])} ::
      k !in m && IsPlainText(k) ==> measure(m[k := v]) == measure(m) + |k| + 4 + size(v)
  }

  lemma SizeGrowsByEntry()
    ensures GrowsByEntry(m => FieldsSize(m), v => Size(v))
  {
    forall m: map<string, Value>, k: string, v: Value | k !in m && IsPlainText(k)
      ensures FieldsSize(m[k := v]) == FieldsSize(m) + |k| + 4 + Size(v)
    {
      AddField(m, k, v);
      PlainSize(k);
    }
  }
}
