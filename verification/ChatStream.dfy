/**
 Aggregation of streamed Chat Completions tool calls (agent/tool_observer.rs).

 A provider streams each tool call as deltas that carry an index, an id, or both. The
 observer assigns every delta to one of at most 16 drafts through a hash index with two
 kinds of keys.
 */
module ChatStream {
  import opened Wrappers
  import opened Json
  import opened Runs

  const MAX_DRAFTS := 16
  const MAX_ARGUMENT_CHARS := 16 * 1024

  datatype Key =
    | Indexed(choice: u32, index: u32)
    | ProviderId(choice: u32, id: string)

  datatype Draft = Draft(
    choice: u32,
    index: Option<u32>,
    id: Option<string>,
    name: Option<string>,
    kind: Option<string>,
    arguments: string,
    truncated: bool,
    chunks: u32,
    finish: Option<string>,
    done: bool)

  /** One element of delta.tool_calls; the fragment is a piece of the arguments text. */
  datatype Delta = Delta(
    choice: u32,
    index: Option<u32>,
    id: Option<string>,
    name: Option<string>,
    kind: Option<string>,
    fragment: Option<string>)

  /**
   What a stream does to the table, in order: a delta, with the finish reason of its chunk
   and whether [DONE] was already seen, or the end of a chunk that has a finish reason.
   */
  datatype Event =
    | Chunk(delta: Delta, reason: Option<string>, afterDone: bool)
    | Finish(choice: u32, why: string)

  datatype RawTable = Table(indexes: map<Key, nat>, drafts: seq<Draft>)

  /** The hash index only ever points at drafts that exist. */
  type Table = t: RawTable | forall k :: k in t.indexes ==> t.indexes[k] < |t.drafts|
    witness Table(map[], [])

  const EMPTY: Table := Table(map[], [])

  // ---------- reading a frame ----------

  function DeltaOf(choice: u32, call: Value): Delta {
    var fn := Get(call, "function");
    Delta(choice,
          OptionalU32(Get(call, "index")),
          OptionalString(Get(call, "id")),
          OptionalString(GetIn(fn, "name")),
          OptionalString(Get(call, "type")),
          AsStr(GetIn(fn, "arguments")))
  }

  function ChoiceIndex(choice: Value, position: nat): Option<u32> {
    OrElse(OptionalU32(Get(choice, "index")), if position <= U32_MAX then Some(position) else None)
  }

  function ToolCalls(choice: Value): seq<Value> {
    AsArray(GetIn(Get(choice, "delta"), "tool_calls")).GetOr([])
  }

  function DeltaEvents(choice: u32, calls: seq<Value>, reason: Option<string>, done: bool): (es: seq<Event>)
    ensures |es| == |calls|
  {
    seq(|calls|, i requires 0 <= i < |calls| => Chunk(DeltaOf(choice, calls[i]), reason, done))
  }

  function ChoiceEvents(choice: Value, position: nat, done: bool): seq<Event> {
    var number := ChoiceIndex(choice, position);
    if number.None? then []
    else
      var reason := OptionalString(Get(choice, "finish_reason"));
      DeltaEvents(number.value, ToolCalls(choice), reason, done)
      + if reason.Some? then [Finish(number.value, reason.value)] else []
  }

  function FrameEvents(frame: Value, done: bool): seq<Event> {
    var choices := AsArray(Get(frame, "choices")).GetOr([]);
    ChoicesEvents(choices, |choices|, done)
  }

  /** Events of the first n choices. */
  function ChoicesEvents(choices: seq<Value>, n: nat, done: bool): seq<Event>
    requires n <= |choices|
  {
    if n == 0 then []
    else ChoicesEvents(choices, n - 1, done) + ChoiceEvents(choices[n - 1], n - 1, done)
  }

  // ---------- finding the draft of a delta ----------

  function Keys(d: Delta): seq<Key> {
    (if d.index.Some? then [Indexed(d.choice, d.index.value)] else [])
    + if d.id.Some? then [ProviderId(d.choice, d.id.value)] else []
  }

  function FirstWhere(drafts: seq<Draft>, p: Draft -> bool): (r: Option<nat>)
    ensures r.Some? ==> r.value < |drafts| && p(drafts[r.value])
    ensures r.Some? ==> forall j :: 0 <= j < r.value ==> !p(drafts[j])
    ensures r.None? ==> forall j :: 0 <= j < |drafts| ==> !p(drafts[j])
  {
    if drafts == [] then None
    else if p(drafts[0]) then Some(0)
    else
      var r := FirstWhere(drafts[1..], p);
      if r.Some? then Some(r.value + 1) else None
  }

  /** The only draft that satisfies p; none when no draft or several do. */
  function UniqueWhere(drafts: seq<Draft>, p: Draft -> bool): (r: Option<nat>)
    ensures r.Some?
        <==> exists i :: 0 <= i < |drafts| && p(drafts[i]) && forall j :: 0 <= j < |drafts| && p(drafts[j]) ==> j == i
    ensures r.Some? ==> r.value < |drafts| && p(drafts[r.value])
  {
    var r := FirstWhere(drafts, p);
    if r.Some? && FirstWhere(drafts[r.value + 1..], p).Some? then
      var other := FirstWhere(drafts[r.value + 1..], p).value;
      assert p(drafts[r.value + 1 + other]);
      None
    else
      assert r.Some? ==> forall j :: r.value < j < |drafts| ==> drafts[j] == drafts[r.value + 1..][j - r.value - 1];
      r
  }

  method UniqueDraftCandidate(drafts: seq<Draft>, p: Draft -> bool) returns (candidate: Option<nat>)
    ensures candidate == UniqueWhere(drafts, p)
  {
    candidate := None;
    for i := 0 to |drafts|
      invariant candidate.None? ==> forall j :: 0 <= j < i ==> !p(drafts[j])
      invariant candidate.Some? ==> candidate.value < i && p(drafts[candidate.value])
      invariant candidate.Some? ==> forall j :: 0 <= j < i && p(drafts[j]) ==> j == candidate.value
    {
      if !p(drafts[i]) {
        continue;
      }
      if candidate.Some? {
        return None;
      }
      candidate := Some(i);
    }
  }

  function IndexOnly(choice: u32, index: u32): Draft -> bool {
    (x: Draft) => x.choice == choice && x.index == Some(index) && x.id.None?
  }

  function SameNameAlias(choice: u32, name: Option<string>): Draft -> bool {
    (x: Draft) => x.choice == choice && x.index.None? && x.id.Some? && name.Some? && x.name == name
  }

  function WithId(choice: u32, id: string): Draft -> bool {
    (x: Draft) => x.choice == choice && x.id == Some(id)
  }

  function WithIndexOrId(choice: u32, index: u32, id: string): Draft -> bool {
    (x: Draft) => x.choice == choice && (x.index == Some(index) || x.id == Some(id))
  }

  function Lookup(indexes: map<Key, nat>, keys: seq<Key>): (r: Option<nat>) {
    if keys == [] then None
    else if keys[0] in indexes then Some(indexes[keys[0]])
    else Lookup(indexes, keys[1..])
  }

  /** The search as the observer runs it: the hash index first, then scans over the drafts. */
  function Find(t: Table, d: Delta): Option<nat> {
    var hit := Lookup(t.indexes, Keys(d));
    if hit.Some? then hit
    else if d.index.Some? && d.id.None? then
      OrElse(FirstWhere(t.drafts, IndexOnly(d.choice, d.index.value)),
             UniqueWhere(t.drafts, SameNameAlias(d.choice, d.name)))
    else if d.index.None? && d.id.Some? then
      FirstWhere(t.drafts, WithId(d.choice, d.id.value))
    else if d.index.Some? && d.id.Some? then
      FirstWhere(t.drafts, WithIndexOrId(d.choice, d.index.value, d.id.value))
    else None
  }

  // ---------- one event ----------

  function Register(indexes: map<Key, nat>, keys: seq<Key>, draft: nat): map<Key, nat> {
    if keys == [] then indexes
    else Register(indexes, keys[..|keys| - 1], draft)[keys[|keys| - 1] := draft]
  }

  function Append(x: Draft, fragment: string): Draft {
    if |x.arguments| >= MAX_ARGUMENT_CHARS then x.(truncated := true)
    else
      var room := MAX_ARGUMENT_CHARS - |x.arguments|;
      x.(arguments := x.arguments + fragment[..Min(room, |fragment|)],
         truncated := x.truncated || |fragment| > room)
  }

  function Absorb(x: Draft, d: Delta, reason: Option<string>, afterDone: bool): Draft {
    var y := x.(
      done := x.done || afterDone,
      chunks := Min(x.chunks + 1, U32_MAX),
      id := OrElse(x.id, d.id),
      index := OrElse(x.index, d.index),
      kind := OrElse(x.kind, d.kind),
      finish := OrElse(x.finish, reason),
      name := OrElse(x.name, d.name));
    if d.fragment.Some? then Append(y, d.fragment.value) else y
  }

  function Fresh(d: Delta): Draft {
    Draft(d.choice, d.index, d.id, None, None, "", false, 0, None, false)
  }

  function MarkFinished(drafts: seq<Draft>, choice: u32, why: string): (r: seq<Draft>)
    ensures |r| == |drafts|
  {
    seq(|drafts|, i requires 0 <= i < |drafts| =>
      if drafts[i].choice == choice then drafts[i].(finish := OrElse(drafts[i].finish, Some(why))) else drafts[i])
  }

  /** The draft that takes the delta, possibly one not yet there; none when the delta is skipped. */
  function Route(t: Table, d: Delta): Option<nat> {
    if Keys(d) == [] then None
    else
      var found := Find(t, d);
      if found.Some? then found
      else if |t.drafts| >= MAX_DRAFTS then None
      else Some(|t.drafts|)
  }

  lemma RouteBounded(t: Table, d: Delta)
    ensures Route(t, d).Some? ==> Route(t, d).value <= |t.drafts|
  {
    LookupHit(t.indexes, Keys(d));
  }

  lemma {:induction false} LookupHit(indexes: map<Key, nat>, keys: seq<Key>)
    ensures var r := Lookup(indexes, keys);
            && (r.Some? ==> exists k :: k in keys && k in indexes && indexes[k] == r.value)
            && (r.None? ==> forall k :: k in keys ==> k !in indexes)
  {
    if keys != [] {
      LookupHit(indexes, keys[1..]);
    }
  }

  lemma {:induction false} RegisterKeys(indexes: map<Key, nat>, keys: seq<Key>, draft: nat)
    ensures var r := Register(indexes, keys, draft);
            && (forall k :: k in r <==> k in indexes || k in keys)
            && (forall k :: k in keys ==> r[k] == draft)
            && (forall k :: k in indexes && k !in keys ==> r[k] == indexes[k])
  {
    if keys != [] {
      RegisterKeys(indexes, keys[..|keys| - 1], draft);
    }
  }

  /** Hands the delta to a draft, created first when it is one past the last. */
  function Deliver(t: Table, d: Delta, reason: Option<string>, afterDone: bool, i: nat): Table
    requires i <= |t.drafts|
  {
    RegisterKeys(t.indexes, Keys(d), i);
    var drafts := if i == |t.drafts| then t.drafts + [Fresh(d)] else t.drafts;
    Table(Register(t.indexes, Keys(d), i), drafts[i := Absorb(drafts[i], d, reason, afterDone)])
  }

  function Apply(t: Table, e: Event): Table {
    match e
    case Finish(choice, why) => Table(t.indexes, MarkFinished(t.drafts, choice, why))
    case Chunk(d, reason, afterDone) =>
      var to := Route(t, d);
      if to.None? then t
      else
        RouteBounded(t, d);
        Deliver(t, d, reason, afterDone, to.value)
  }

  /** The table after a whole stream. */
  function Run(es: seq<Event>): Table {
    Fold(Apply, EMPTY, es)
  }

  lemma RunSnoc(es: seq<Event>, e: Event)
    ensures Run(es + [e]) == Apply(Run(es), e)
  {
    FoldSnoc(Apply, EMPTY, es, e);
  }
}
