/**
 The observer as it runs: it updates a hash index and a list of drafts in place, tool call by
 tool call, and turns the drafts into observed calls at the end of the stream.
 */
module ChatStreamObserver {
  import opened Wrappers
  import opened Text
  import opened Runs
  import opened SseFrames
  import opened Json
  import opened ChatStream
  import opened ChatStreamSafety
  import opened ChatStreamHistory
  import opened ChatWire

  // ---------- the table, in place ----------

  method AppendArguments(x: Draft, fragment: string) returns (y: Draft)
    ensures y == Append(x, fragment)
  {
    y := x;
    if |y.arguments| >= MAX_ARGUMENT_CHARS {
      y := y.(truncated := true);
      return;
    }
    var remaining := MAX_ARGUMENT_CHARS - |y.arguments|;
    var taken := 0;
    while taken < remaining && taken < |fragment|
      invariant 0 <= taken <= Min(remaining, |fragment|)
      invariant y == x.(arguments := x.arguments + fragment[..taken])
    {
      y := y.(arguments := y.arguments + [fragment[taken]]);
      assert fragment[..taken + 1] == fragment[..taken] + [fragment[taken]];
      taken := taken + 1;
    }
    if taken < |fragment| {
      y := y.(truncated := true);
    }
  }

  method AbsorbDelta(x: Draft, d: Delta, reason: Option<string>, doneSeen: bool) returns (draft: Draft)
    ensures draft == Absorb(x, d, reason, doneSeen)
  {
    var done, chunks := x.done || doneSeen, Min(x.chunks + 1, U32_MAX);
    draft := x.(done := done, chunks := chunks);
    if draft.id.None? {
      draft := draft.(id := d.id);
    }
    if draft.index.None? {
      draft := draft.(index := d.index);
    }
    var id, index := OrElse(x.id, d.id), OrElse(x.index, d.index);
    assert draft == x.(done := done, chunks := chunks, id := id, index := index);
    if draft.kind.None? {
      draft := draft.(kind := d.kind);
    }
    if draft.finish.None? {
      draft := draft.(finish := reason);
    }
    if draft.name.None? {
      draft := draft.(name := d.name);
    }
    var kind, finish, name := OrElse(x.kind, d.kind), OrElse(x.finish, reason), OrElse(x.name, d.name);
    assert draft == x.(done := done, chunks := chunks, id := id, index := index,
                       kind := kind, finish := finish, name := name);
    if d.fragment.Some? {
      draft := AppendArguments(draft, d.fragment.value);
    }
  }

  method ApplyFinishReason(drafts: seq<Draft>, choice: u32, why: string) returns (marked: seq<Draft>)
    ensures marked == MarkFinished(drafts, choice, why)
  {
    marked := drafts;
    for i := 0 to |drafts|
      invariant |marked| == |drafts|
      invariant forall j :: i <= j < |drafts| ==> marked[j] == drafts[j]
      invariant forall j :: 0 <= j < i ==> marked[j] == MarkFinished(drafts, choice, why)[j]
    {
      if marked[i].choice == choice && marked[i].finish.None? {
        marked := marked[i := marked[i].(finish := Some(why))];
      }
    }
  }

  class DraftTable {
    var draftIndexes: map<Key, nat>
    var drafts: seq<Draft>

    ghost predicate Valid()
      reads this
    {
      forall k :: k in draftIndexes ==> draftIndexes[k] < |drafts|
    }

    ghost function Contents(): Table
      requires Valid()
      reads this
    {
      Table(draftIndexes, drafts)
    }

    constructor ()
      ensures Valid() && Contents() == EMPTY
    {
      draftIndexes := map[];
      drafts := [];
    }

    method FindDraftIndex(d: Delta) returns (found: Option<nat>)
      requires Valid()
      ensures found == Find(Contents(), d)
    {
      found := Lookup(draftIndexes, Keys(d));
      if found.Some? {
        return;
      }
      match (d.index, d.id) {
        case (Some(index), None) =>
          found := FirstWhere(drafts, IndexOnly(d.choice, index));
          if found.None? {
            found := UniqueDraftCandidate(drafts, SameNameAlias(d.choice, d.name));
          }
        case (None, Some(id)) =>
          found := FirstWhere(drafts, WithId(d.choice, id));
        case (Some(index), Some(id)) =>
          found := FirstWhere(drafts, WithIndexOrId(d.choice, index, id));
        case (None, None) =>
      }
    }

    method RegisterKeyAliases(keys: seq<Key>, draftIndex: nat)
      modifies this`draftIndexes
      ensures draftIndexes == Register(old(draftIndexes), keys, draftIndex)
    {
      for i := 0 to |keys|
        invariant draftIndexes == Register(old(draftIndexes), keys[..i], draftIndex)
      {
        draftIndexes := draftIndexes[keys[i] := draftIndex];
        assert keys[..i + 1][..i] == keys[..i];
      }
      assert keys[..|keys|] == keys;
    }

    method ObserveDelta(d: Delta, reason: Option<string>, doneSeen: bool)
      requires Valid()
      modifies this
      ensures Valid()
      ensures Contents() == Apply(old(Contents()), Chunk(d, reason, doneSeen))
    {
      var keys := Keys(d);
      if keys == [] {
        return;
      }
      RouteBounded(Contents(), d);
      var found := FindDraftIndex(d);
      if found.None? && |drafts| >= MAX_DRAFTS {
        return;
      }
      var draftIndex := if found.Some? then found.value else |drafts|;
      assert Route(Contents(), d) == Some(draftIndex);
      HandTo(d, reason, doneSeen, draftIndex);
    }

    method HandTo(d: Delta, reason: Option<string>, doneSeen: bool, draftIndex: nat)
      requires Valid() && draftIndex <= |drafts|
      modifies this
      ensures Valid()
      ensures Contents() == Deliver(old(Contents()), d, reason, doneSeen, draftIndex)
    {
      if draftIndex == |drafts| {
        drafts := drafts + [Fresh(d)];
      }
      RegisterKeys(draftIndexes, Keys(d), draftIndex);
      RegisterKeyAliases(Keys(d), draftIndex);
      var draft := AbsorbDelta(drafts[draftIndex], d, reason, doneSeen);
      drafts := drafts[draftIndex := draft];
    }

    method ObserveToolCalls(choice: u32, calls: seq<Value>, reason: Option<string>, doneSeen: bool)
      requires Valid()
      modifies this
      ensures Valid()
      ensures Contents() == Fold(Apply, old(Contents()), DeltaEvents(choice, calls, reason, doneSeen))
    {
      ghost var start, es := Contents(), DeltaEvents(choice, calls, reason, doneSeen);
      for i := 0 to |calls|
        invariant Valid()
        invariant Contents() == Fold(Apply, start, es[..i])
      {
        var d := DeltaOf(choice, calls[i]);
        ObserveDelta(d, reason, doneSeen);
        FoldNext(Apply, start, es, i);
      }
      assert es[..|calls|] == es;
    }

    method ObserveChoice(choice: Value, position: nat, doneSeen: bool)
      requires Valid()
      modifies this
      ensures Valid()
      ensures Contents() == Fold(Apply, old(Contents()), ChoiceEvents(choice, position, doneSeen))
      ensures forall c :: SaysChoice(choice, c) ==>
        Contents() == Fold(Apply, old(Contents()), EventsOfChoice(c, position, doneSeen))
    {
      forall c | SaysChoice(choice, c)
        ensures ChoiceEvents(choice, position, doneSeen) == EventsOfChoice(c, position, doneSeen)
      {
        ReadsChoice(choice, c, position, doneSeen);
      }
      var number := ChoiceIndex(choice, position);
      if number.None? {
        return;
      }
      var reason := OptionalString(Get(choice, "finish_reason"));
      var calls := ToolCalls(choice);
      ghost var es := DeltaEvents(number.value, calls, reason, doneSeen);
      ObserveToolCalls(number.value, calls, reason, doneSeen);
      if reason.Some? {
        drafts := ApplyFinishReason(drafts, number.value, reason.value);
        FoldSnoc(Apply, old(Contents()), es, Finish(number.value, reason.value));
      } else {
        assert es + [] == es;
      }
    }

    method ObserveFrame(frame: Value, doneSeen: bool)
      requires Valid()
      modifies this
      ensures Valid()
      ensures Contents() == Fold(Apply, old(Contents()), FrameEvents(frame, doneSeen))
      ensures forall said :: SaysFrame(frame, said) ==>
        Contents() == Fold(Apply, old(Contents()), EventsOfChoices(said, doneSeen))
    {
      forall said | SaysFrame(frame, said)
        ensures FrameEvents(frame, doneSeen) == EventsOfChoices(said, doneSeen)
      {
        ReadsFrame(frame, said, doneSeen);
      }
      var choices := AsArray(Get(frame, "choices")).GetOr([]);
      ghost var start := Contents();
      for i := 0 to |choices|
        invariant Valid()
        invariant Contents() == Fold(Apply, start, ChoicesEvents(choices, i, doneSeen))
      {
        ObserveChoice(choices[i], i, doneSeen);
        FoldAppend(Apply, start, ChoicesEvents(choices, i, doneSeen), ChoiceEvents(choices[i], i, doneSeen));
      }
    }
  }

  // ---------- the whole stream ----------

  datatype Scan = Scan(events: seq<Event>, done: bool)

  /** Events of the frames in order, and whether [DONE] was among them; JSON parsing is given. */
  function ScanFrames(frames: seq<string>, parse: string -> Option<Value>): Scan {
    if frames == [] then Scan([], false)
    else
      var before := ScanFrames(frames[..|frames| - 1], parse);
      var frame := Trim(frames[|frames| - 1]);
      if frame == "" then before
      else if frame == "[DONE]" then before.(done := true)
      else
        var value := parse(frame);
        if value.None? then before
        else before.(events := before.events + FrameEvents(value.value, before.done))
  }

  /** The scan finds the events of what the frames say. */
  lemma {:induction false} ReadsStream(frames: seq<string>, parts: seq<Part>, parse: string -> Option<Value>)
    requires SaysStream(frames, parts, parse)
    ensures ScanFrames(frames, parse) == Scan(EventsOfParts(parts), DoneMark in parts)
  {
    if frames != [] {
      var n := |frames| - 1;
      ReadsStream(frames[..n], parts[..n], parse);
      assert SaysPart(frames[n], parts[n], parse) && parts == parts[..n] + [parts[n]];
      if parts[n].Said? {
        ReadsFrame(parse(Trim(frames[n])).value, parts[n].choices, DoneMark in parts[..n]);
      }
    }
  }

  datatype Status = Complete | Partial

  datatype ObservedCall = ObservedCall(draft: Draft, status: Status, idempotencyKey: string)

  function Observe(request: string, x: Draft, streamDone: bool): ObservedCall {
    var y := x.(done := x.done || streamDone);
    ObservedCall(
      y,
      if y.truncated then Partial
      else if y.finish == Some("tool_calls") || y.done then Complete
      else Partial,
      IdempotencyKey(request, y))
  }

  /** Feeds the frames to a new table, up to and past [DONE]. */
  method ScanStream(frames: seq<string>, parse: string -> Option<Value>) returns (drafts: seq<Draft>, doneSeen: bool)
    ensures doneSeen == ScanFrames(frames, parse).done
    ensures drafts == Run(ScanFrames(frames, parse).events).drafts
  {
    var table := new DraftTable();
    doneSeen := false;
    for i := 0 to |frames|
      invariant table.Valid()
      invariant doneSeen == ScanFrames(frames[..i], parse).done
      invariant table.Contents() == Run(ScanFrames(frames[..i], parse).events)
    {
      assert frames[..i + 1][..i] == frames[..i];
      var frame := Trim(frames[i]);
      if frame == "" {
        continue;
      }
      if frame == "[DONE]" {
        doneSeen := true;
        continue;
      }
      var value := parse(frame);
      if value.None? {
        continue;
      }
      table.ObserveFrame(value.value, doneSeen);
      FoldAppend(Apply, EMPTY, ScanFrames(frames[..i], parse).events, FrameEvents(value.value, doneSeen));
    }
    assert frames[..|frames|] == frames;
    drafts := table.drafts;
  }

  method ObservedCalls(request: string, drafts: seq<Draft>, doneSeen: bool) returns (observed: seq<ObservedCall>)
    ensures |observed| == Min(|drafts|, MAX_DRAFTS)
    ensures forall i :: 0 <= i < |observed| ==> observed[i] == Observe(request, drafts[i], doneSeen)
  {
    observed := [];
    for i := 0 to Min(|drafts|, MAX_DRAFTS)
      invariant |observed| == i
      invariant forall j :: 0 <= j < i ==> observed[j] == Observe(request, drafts[j], doneSeen)
    {
      observed := observed + [Observe(request, drafts[i], doneSeen)];
    }
  }

  /**
   The calls observed in a response body: none for an oversized body, otherwise one per
   draft, with keys that differ, marked done exactly when the stream said [DONE]. The drafts
   are those of the events that the first 128 frames say, however they are written.
   */
  method ObserveStreamToolCalls(request: string, bodyBytes: nat, text: string, parse: string -> Option<Value>)
    returns (observed: seq<ObservedCall>)
    ensures bodyBytes > 1024 * 1024 ==> observed == []
    ensures |observed| <= 16
    ensures forall i, j :: 0 <= i < j < |observed| ==> observed[i].idempotencyKey != observed[j].idempotencyKey
    ensures var scan := ScanFrames(TakeFrames(text), parse);
            bodyBytes <= 1024 * 1024 ==>
              && |observed| == |Run(scan.events).drafts|
              && forall i :: 0 <= i < |observed| ==>
                   && observed[i].draft == Run(scan.events).drafts[i].(done := scan.done)
                   && (observed[i].status.Complete? <==>
                         !observed[i].draft.truncated && (observed[i].draft.finish == Some("tool_calls") || scan.done))
                   && observed[i].idempotencyKey == IdempotencyKey(request, Run(scan.events).drafts[i])
    ensures forall parts :: bodyBytes <= 1024 * 1024 && SaysStream(TakeFrames(text), parts, parse) ==>
      var drafts := Run(EventsOfParts(parts)).drafts;
      && |observed| == |drafts|
      && forall i :: 0 <= i < |drafts| ==> observed[i].draft == drafts[i].(done := DoneMark in parts)
  {
    forall parts | SaysStream(TakeFrames(text), parts, parse)
      ensures ScanFrames(TakeFrames(text), parse) == Scan(EventsOfParts(parts), DoneMark in parts)
    {
      ReadsStream(TakeFrames(text), parts, parse);
    }
    observed := [];
    if bodyBytes > MAX_BODY_BYTES {
      return;
    }
    var frames := ParseSseDataFrames(text);
    frames := frames[..Min(|frames|, MAX_FRAMES)];
    var drafts, doneSeen := ScanStream(frames, parse);
    observed := ObservedCalls(request, drafts, doneSeen);
    IdempotencyKeysDistinct(request, ScanFrames(frames, parse).events);
    DraftsDoneOnlyIfStreamIs(frames, parse);
  }

  lemma {:induction false} EventsAfterDone(frames: seq<string>, parse: string -> Option<Value>)
    ensures var scan := ScanFrames(frames, parse);
            forall e :: e in scan.events && e.Chunk? && e.afterDone ==> scan.done
  {
    if frames != [] {
      EventsAfterDone(frames[..|frames| - 1], parse);
      var before := ScanFrames(frames[..|frames| - 1], parse);
      var value := parse(Trim(frames[|frames| - 1]));
      if value.Some? {
        var choices := AsArray(Get(value.value, "choices")).GetOr([]);
        FrameEventsCarryDone(choices, |choices|, before.done);
      }
    }
  }

  lemma {:induction false} FrameEventsCarryDone(choices: seq<Value>, n: nat, done: bool)
    requires n <= |choices|
    ensures forall e :: e in ChoicesEvents(choices, n, done) && e.Chunk? ==> e.afterDone == done
  {
    if n > 0 {
      FrameEventsCarryDone(choices, n - 1, done);
    }
  }

  lemma DraftsDoneOnlyIfStreamIs(frames: seq<string>, parse: string -> Option<Value>)
    ensures var scan := ScanFrames(frames, parse);
            forall i :: 0 <= i < |Run(scan.events).drafts| && Run(scan.events).drafts[i].done ==> scan.done
  {
    var scan := ScanFrames(frames, parse);
    EventsAfterDone(frames, parse);
    forall i | 0 <= i < |Run(scan.events).drafts| && Run(scan.events).drafts[i].done ensures scan.done {
      DraftsSummarizeHistories(scan.events, i);
      TrailFromEvents(Apply, EMPTY, scan.events, Reaching(i));
    }
  }

  // ---------- an example ----------

  function OneCall(number: u32, c: WireCall): Part {
    Said([WireChoice(Some(number), [c], None)])
  }

  lemma OneChunk(number: u32, c: WireCall)
    ensures EventsOfChoices(OneCall(number, c).choices, false) == [Chunk(DeltaIn(number, c), None, false)]
  {
    assert OneCall(number, c).choices[..0] == [];
  }

  lemma TwoChunks(m: u32, n: u32, c: WireCall)
    ensures EventsOfParts([OneCall(m, c), OneCall(n, c)])
         == [Chunk(DeltaIn(m, c), None, false)] + [Chunk(DeltaIn(n, c), None, false)]
  {
    OneChunk(m, c);
    OneChunk(n, c);
    var parts := [OneCall(m, c), OneCall(n, c)];
    var first := parts[..1];
    assert first == [OneCall(m, c)] && first[..0] == [] && DoneMark !in first;
    assert EventsOfParts(first) == [] + [Chunk(DeltaIn(m, c), None, false)];
  }

  lemma FirstOfChoice(d: Delta)
    requires d.index.Some? || d.id.Some?
    ensures var t := Run([Chunk(d, None, false)]);
            && Inv(t) && |t.drafts| == 1 && t.drafts[0].choice == d.choice
            && forall k :: k in t.indexes ==> k.choice == d.choice
  {
    var a := Chunk(d, None, false);
    RunInv([a]);
    RunSnoc([], a);
    assert [] + [a] == [a];
    RouteExactly(EMPTY, d);
    DeliverEffect(EMPTY, d, None, false, 0);
  }

  lemma NextOfAnotherChoice(t: Table, d: Delta)
    requires Inv(t) && |t.drafts| == 1 && (d.index.Some? || d.id.Some?)
    requires t.drafts[0].choice != d.choice && forall k :: k in t.indexes ==> k.choice != d.choice
    ensures var r := Apply(t, Chunk(d, None, false));
            |r.drafts| == 2 && r.drafts[0] == t.drafts[0] && r.drafts[1].choice == d.choice
  {
    RouteExactly(t, d);
    DeliverEffect(t, d, None, false, 1);
  }

  lemma DeltasOfTwoChoices(d: Delta, e: Delta)
    requires d.choice != e.choice && (d.index.Some? || d.id.Some?) && (e.index.Some? || e.id.Some?)
    ensures var drafts := Run([Chunk(d, None, false)] + [Chunk(e, None, false)]).drafts;
            |drafts| == 2 && drafts[0].choice == d.choice && drafts[1].choice == e.choice
  {
    FirstOfChoice(d);
    NextOfAnotherChoice(Run([Chunk(d, None, false)]), e);
    RunSnoc([Chunk(d, None, false)], Chunk(e, None, false));
  }

  /** The same call in two choices is two calls, although index and id are the same. */
  lemma ChoicesStayApart(m: u32, n: u32, c: WireCall)
    requires m != n && (c.index.Some? || c.id.Some?)
    ensures var drafts := Run(EventsOfParts([OneCall(m, c), OneCall(n, c)])).drafts;
            |drafts| == 2 && drafts[0].choice == m && drafts[1].choice == n
  {
    TwoChunks(m, n, c);
    DeltasOfTwoChoices(DeltaIn(m, c), DeltaIn(n, c));
  }
}
