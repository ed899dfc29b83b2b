/**
 The shared Redis as the gateway uses it (app_redis.rs): commands and scripts that run
 atomically at one instant of the server clock.

 A key with a deadline is gone once the clock is past the deadline; at the deadline itself it
 is still there, with zero milliseconds to live.
 */
module RedisStore {
  import opened Wrappers
  import opened Text

  const I64_MAX := 0x7FFF_FFFF_FFFF_FFFF
  const I64_MIN := -0x8000_0000_0000_0000

  /** Strings and integers are one Redis type; what INCR wrote is kept as the integer. */
  datatype Stored = Text(text: string) | Count(number: int)

  datatype Entry = Entry(value: Stored, deadline: Option<nat>)

  datatype Store = Store(now: nat, entries: map<string, Entry>)

  datatype Result<+T> = Ok(value: T) | Refused

  // ---------- commands as functions ----------

  predicate Live(s: Store, key: string) {
    key in s.entries && (s.entries[key].deadline.None? || s.now <= s.entries[key].deadline.value)
  }

  function StoredText(v: Stored): string {
    match v
    case Text(text) => text
    case Count(n) => IntText(n)
  }

  predicate AllDigits(s: string) {
    s != "" && forall i :: 0 <= i < |s| ==> '0' <= s[i] <= '9'
  }

  function SignedNumber(negative: bool, digits: string, t: string): Option<int> {
    if !AllDigits(digits) then None
    else
      var n: int := if negative then -(NumeralValue(digits) as int) else NumeralValue(digits);
      if IntText(n) == t && I64_MIN <= n <= I64_MAX then Some(n) else None
  }

  /** The integer that INCR sees in a text, which must be exactly as Redis writes it. */
  function NumberOfText(t: string): Option<int> {
    if t != "" && t[0] == '-' then SignedNumber(true, t[1..], t) else SignedNumber(false, t, t)
  }

  lemma SignedNumberOf(negative: bool, m: nat, n: int, t: string)
    requires n == (if negative then -(m as int) else m) && t == IntText(n) && I64_MIN <= n <= I64_MAX
    ensures SignedNumber(negative, Decimal(m), t) == Some(n)
  {
    DecimalValue(m);
  }

  lemma NumberTextParsed(n: int)
    requires I64_MIN <= n <= I64_MAX
    ensures NumberOfText(IntText(n)) == Some(n)
  {
    var t := IntText(n);
    if n < 0 {
      var m := -n;
      assert t == "-" + Decimal(m) && t[1..] == Decimal(m);
      SignedNumberOf(true, m, n, t);
    } else {
      assert t == Decimal(n) && t[0] != '-';
      SignedNumberOf(false, n, n, t);
    }
  }

  /** INCR takes exactly the decimal texts of 64-bit integers, without plus sign or leading zeros. */
  lemma NumberTexts(t: string, n: int)
    ensures NumberOfText(t) == Some(n) <==> t == IntText(n) && I64_MIN <= n <= I64_MAX
  {
    if t == IntText(n) && I64_MIN <= n <= I64_MAX {
      NumberTextParsed(n);
    }
  }

  function StoredNumber(v: Stored): Option<int> {
    match v
    case Text(text) => NumberOfText(text)
    case Count(n) => Some(n)
  }

  /** GET. */
  function Read(s: Store, key: string): Option<string> {
    if Live(s, key) then Some(StoredText(s.entries[key].value)) else None
  }

  /** An expiry in seconds that Redis accepts: positive, and representable as a deadline. */
  predicate ValidTtl(now: nat, ttlSecs: nat) {
    0 < ttlSecs <= I64_MAX / 1000 && ttlSecs * 1000 <= I64_MAX - now
  }

  function Put(s: Store, key: string, entry: Entry): Store {
    s.(entries := s.entries[key := entry])
  }

  /** SET key value NX EX ttl on an acceptable expiry. */
  function SetNx(s: Store, key: string, value: string, ttlSecs: nat): Store {
    if Live(s, key) then s else Put(s, key, Entry(Text(value), Some(s.now + ttlSecs * 1000)))
  }

  function Tick(s: Store, ms: nat): Store {
    s.(now := s.now + ms)
  }

  /** What a SET NX EX stores can be read for the given number of seconds, and then no more. */
  lemma ValueLasts(s: Store, key: string, value: string, ttlSecs: nat, ms: nat)
    requires !Live(s, key)
    ensures Read(Tick(SetNx(s, key, value, ttlSecs), ms), key) == if ms <= 1000 * ttlSecs then Some(value) else None
  {
  }

  // ---------- the scripts as functions ----------

  /** The token-checked delete: the key goes only if it still holds the expected value. */
  function Release(s: Store, key: string, expected: string): Store {
    if Read(s, key) == Some(expected) then s.(entries := s.entries - {key}) else s
  }

  datatype Reply = Reply(count: int, ttl: int, repaired: int)

  datatype Counted = Counted(store: Store, reply: Result<Reply>)

  /** The entry that INCR works on: what is live, or a zero without expiry. */
  function Base(s: Store, key: string): Entry {
    if Live(s, key) then s.entries[key] else Entry(Count(0), None)
  }

  /**
   The fixed-window count: one more than before, in the window that is running; a key without
   a deadline gets one and reports a repair unless it was just created.
   */
  function CountOne(s: Store, key: string, windowMs: nat): Counted {
    var base := Base(s, key);
    var number := StoredNumber(base.value);
    if number.None? || number.value == I64_MAX then Counted(s, Refused)
    else
      var count := number.value + 1;
      if count < 1 then Counted(Put(s, key, Entry(Count(count), base.deadline)), Refused)
      else
        var deadline := base.deadline.GetOr(s.now + windowMs);
        Counted(Put(s, key, Entry(Count(count), Some(deadline))),
                Ok(Reply(count, deadline - s.now, if base.deadline.None? && count > 1 then 1 else 0)))
  }

  // ---------- the connection ----------

  class AppRedis {
    var now: nat
    var entries: map<string, Entry>

    ghost function Contents(): Store
      reads this
    {
      Store(now, entries)
    }

    constructor ()
      ensures Contents() == Store(0, map[])
    {
      now := 0;
      entries := map[];
    }

    method Advance(ms: nat)
      modifies this`now
      ensures Contents() == Tick(old(Contents()), ms)
    {
      now := now + ms;
    }

    method GetString(key: string) returns (value: Option<string>)
      ensures value == Read(Contents(), key)
    {
      if key !in entries {
        return None;
      }
      var entry := entries[key];
      if entry.deadline.Some? && now > entry.deadline.value {
        return None;
      }
      value := Some(StoredText(entry.value));
    }

    method SetNxEx(key: string, value: string, ttlSecs: nat) returns (inserted: Result<bool>)
      modifies this`entries
      ensures inserted.Refused? <==> !ValidTtl(now, ttlSecs)
      ensures inserted.Refused? ==> Contents() == old(Contents())
      ensures inserted.Ok? ==> Contents() == SetNx(old(Contents()), key, value, ttlSecs)
      ensures inserted.Ok? ==> inserted.value == !Live(old(Contents()), key)
    {
      if ttlSecs == 0 || ttlSecs > I64_MAX / 1000 || ttlSecs * 1000 > I64_MAX - now {
        return Refused;
      }
      var present := GetString(key);
      if present.Some? {
        return Ok(false);
      }
      entries := entries[key := Entry(Text(value), Some(now + ttlSecs * 1000))];
      inserted := Ok(true);
    }

    method DelIfValue(key: string, expected: string) returns (deleted: bool)
      modifies this`entries
      ensures Contents() == Release(old(Contents()), key, expected)
      ensures deleted <==> Read(old(Contents()), key) == Some(expected)
    {
      var current := GetString(key);
      if current == Some(expected) {
        entries := entries - {key};
        return true;
      }
      deleted := false;
    }

    /** INCR: an absent key counts as zero; the expiry of a live key stays. */
    method Incr(key: string) returns (count: Result<int>)
      modifies this`entries
      ensures var base := Base(old(Contents()), key);
              var number := StoredNumber(base.value);
              if number.None? || number.value == I64_MAX
              then count.Refused? && entries == old(entries)
              else count == Ok(number.value + 1)
                   && entries == old(entries)[key := Entry(Count(number.value + 1), base.deadline)]
    {
      var entry := Entry(Count(0), None);
      var present := GetString(key);
      if present.Some? {
        entry := entries[key];
      }
      var number := StoredNumber(entry.value);
      if number.None? || number.value == I64_MAX {
        return Refused;
      }
      entries := entries[key := Entry(Count(number.value + 1), entry.deadline)];
      count := Ok(number.value + 1);
    }

    /** PTTL: -2 for no key, -1 for no expiry. */
    method Pttl(key: string) returns (ttl: int)
      ensures ttl == if !Live(Contents(), key) then -2
                     else if entries[key].deadline.None? then -1
                     else entries[key].deadline.value - now
    {
      if key !in entries {
        return -2;
      }
      var deadline := entries[key].deadline;
      if deadline.None? {
        return -1;
      }
      ttl := if now > deadline.value then -2 else deadline.value - now;
    }

    /** The admission script, command by command. */
    method IdentityRateLimitCount(key: string, windowMs: nat) returns (reply: Result<Reply>)
      requires windowMs > 0
      modifies this`entries
      ensures Counted(Contents(), reply) == CountOne(old(Contents()), key, windowMs)
    {
      var count := Incr(key);
      if count.Refused? {
        return Refused;
      }
      if count.value < 1 {
        return Refused;
      }
      var ttl := Pttl(key);
      var repaired := 0;
      if ttl < 0 {
        entries := entries[key := entries[key].(deadline := Some(now + windowMs))];
        ttl := windowMs;
        if count.value > 1 {
          repaired := 1;
        }
      }
      reply := Ok(Reply(count.value, ttl, repaired));
    }
  }
}
