/**
 What merging keeps: over a whole stream, and whichever of two reports comes first.
 */
module ResponsesMerge {
  import opened Wrappers
  import opened Runs
  import opened Json
  import opened ResponsesStream

  // ---------- one metadata field after a merge ----------

  lemma {:induction false} InsertAllField(m: map<string, Value>, source: map<string, Value>, keys: seq<string>,
                                          key: string)
    ensures FieldOf(InsertAll(m, source, keys), key)
         == if key in keys then OrElse(NonNull(source, key), FieldOf(m, key)) else FieldOf(m, key)
  {
    if keys != [] {
      InsertAllField(m, source, keys[..|keys| - 1], key);
    }
  }

  lemma {:induction false} FillAllField(m: map<string, Value>, source: map<string, Value>, keys: seq<string>,
                                        key: string)
    ensures FieldOf(FillAll(m, source, keys), key)
         == if key in keys && NonNull(m, key).None? then OrElse(NonNull(source, key), FieldOf(m, key))
            else FieldOf(m, key)
  {
    if keys != [] {
      FillAllField(m, source, keys[..|keys| - 1], key);
    }
  }

  lemma FieldClasses()
    ensures "status" !in ID_FIELDS && "status" !in ARGUMENT_FIELDS
    ensures forall key :: key in ID_FIELDS ==> key !in ARGUMENT_FIELDS
  {
  }

  /** Identifiers: the newer report wins. Arguments: the older. Status: the newer unless a placeholder. */
  function MergedField(m: map<string, Value>, source: map<string, Value>, key: string): Option<Value> {
    var older, newer := FieldOf(m, key), NonNull(source, key);
    if key in ID_FIELDS then OrElse(newer, older)
    else if key in ARGUMENT_FIELDS then if NonNull(m, key).Some? then older else OrElse(newer, older)
    else if key == "status" && newer.Some? && (newer.value != Str("arguments_done") || older.None?) then newer
    else older
  }

  lemma MergedFields(m: map<string, Value>, source: map<string, Value>, key: string)
    ensures FieldOf(MergedMetadata(m, source), key) == MergedField(m, source, key)
  {
    FieldClasses();
    var ids := InsertAll(m, source, ID_FIELDS);
    InsertAllField(m, source, ID_FIELDS, key);
    InsertAllField(m, source, ID_FIELDS, "status");
    var status := SetStatus(ids, source);
    assert key != "status" ==> FieldOf(status, key) == FieldOf(ids, key);
    FillAllField(status, source, ARGUMENT_FIELDS, key);
  }

  // ---------- merging a list of reports ----------

  function MergeAllWith(merge: (Item, Item) -> Item, rs: seq<Item>): Item
    requires rs != []
  {
    if |rs| == 1 then rs[0] else merge(MergeAllWith(merge, rs[..|rs| - 1]), rs[|rs| - 1])
  }

  function MergeAll(rs: seq<Item>): Item
    requires rs != []
  {
    MergeAllWith(Merge, rs)
  }

  predicate FunctionCalls(rs: seq<Item>) {
    rs != [] && forall i :: 0 <= i < |rs| ==> rs[i].kind == FunctionCall
  }

  function OutputOf(x: Item): Option<u32> { x.outputIndex }
  function ResponseOf(x: Item): Option<string> { x.responseId }
  function ItemIdOf(x: Item): Option<string> { x.itemId }
  function CallOf(x: Item): Option<string> { x.callId }
  function NameOf(x: Item): Option<string> { x.name }
  function StatusOf(x: Item): Option<string> { x.status }
  function FieldReader(key: string): Item -> Option<Value> { (x: Item) => NonNull(x.metadata, key) }

  /** Each field of the merged item, from the whole list of reports. */
  lemma {:induction false} MergedValues(rs: seq<Item>)
    requires FunctionCalls(rs)
    ensures var m := MergeAll(rs);
            && m.kind == FunctionCall
            && m.key == rs[0].key
            && m.outputIndex == LastSome(rs, OutputOf)
            && m.responseId == LastSome(rs, ResponseOf)
            && m.itemId == LastSome(rs, ItemIdOf)
            && m.callId == LastSome(rs, CallOf)
            && m.name == OrElse(LastSome(rs, RealName), FirstSome(rs, NameOf))
            && m.status == OrElse(LastSome(rs, RealStatus), FirstSome(rs, StatusOf))
  {
    var n := |rs| - 1;
    if n == 0 {
      assert rs[..0] == [];
    } else {
      MergedValues(rs[..n]);
      RealNamesAreNames(rs[..n]);
    }
  }

  lemma {:induction false} RealNamesAreNames(rs: seq<Item>)
    ensures LastSome(rs, RealName).Some? ==> FirstSome(rs, NameOf).Some?
    ensures LastSome(rs, RealStatus).Some? ==> FirstSome(rs, StatusOf).Some?
    ensures FirstSome(rs, NameOf).None? ==> LastSome(rs, RealName).None?
  {
    if rs != [] {
      RealNamesAreNames(rs[..|rs| - 1]);
    }
  }

  lemma MergedItemField(x: Item, d: Item, key: string)
    requires x.kind == d.kind == FunctionCall
    ensures FieldOf(Merge(x, d).metadata, key) == MergedField(x.metadata, d.metadata, key)
  {
    MergedFields(x.metadata, d.metadata, key);
  }

  lemma IdFieldStep(x: Item, d: Item, key: string)
    requires x.kind == d.kind == FunctionCall && key in ID_FIELDS
    ensures NonNull(Merge(x, d).metadata, key) == OrElse(NonNull(d.metadata, key), NonNull(x.metadata, key))
  {
    FieldClasses();
    MergedItemField(x, d, key);
  }

  lemma ArgumentFieldStep(x: Item, d: Item, key: string)
    requires x.kind == d.kind == FunctionCall && key in ARGUMENT_FIELDS
    ensures NonNull(Merge(x, d).metadata, key) == OrElse(NonNull(x.metadata, key), NonNull(d.metadata, key))
  {
    FieldClasses();
    MergedItemField(x, d, key);
  }

  lemma {:induction false} MergedKind(rs: seq<Item>)
    requires FunctionCalls(rs)
    ensures MergeAll(rs).kind == FunctionCall
  {
    if |rs| > 1 {
      MergedKind(rs[..|rs| - 1]);
    }
  }

  /** Identifiers in the metadata come from the last report that has them, arguments from the first. */
  lemma {:induction false} MergedMetadataValues(rs: seq<Item>, key: string)
    requires FunctionCalls(rs)
    ensures key in ID_FIELDS ==> NonNull(MergeAll(rs).metadata, key) == LastSome(rs, FieldReader(key))
    ensures key in ARGUMENT_FIELDS ==> NonNull(MergeAll(rs).metadata, key) == FirstSome(rs, FieldReader(key))
  {
    var n := |rs| - 1;
    if n == 0 {
      assert rs[..0] == [];
    } else {
      MergedMetadataValues(rs[..n], key);
      MergedKind(rs[..n]);
      if key in ID_FIELDS {
        IdFieldStep(MergeAll(rs[..n]), rs[n], key);
      }
      if key in ARGUMENT_FIELDS {
        ArgumentFieldStep(MergeAll(rs[..n]), rs[n], key);
      }
    }
  }

  lemma {:induction false} LastSomeExists<T>(rs: seq<Item>, f: Item -> Option<T>)
    ensures LastSome(rs, f).Some? <==> exists i :: 0 <= i < |rs| && f(rs[i]).Some?
  {
    if rs != [] {
      var n := |rs| - 1;
      LastSomeExists(rs[..n], f);
      if exists i :: 0 <= i < n && f(rs[..n][i]).Some? {
        var i :| 0 <= i < n && f(rs[..n][i]).Some?;
        assert f(rs[i]).Some?;
      }
      if exists i :: 0 <= i < |rs| && f(rs[i]).Some? {
        var i :| 0 <= i < |rs| && f(rs[i]).Some?;
        assert i < n ==> f(rs[..n][i]).Some?;
      }
    }
  }

  /** Each of the four facts of the merged item is the disjunction over all reports merged. */
  lemma FactsAreDisjunctions(rs: seq<Item>)
    requires FunctionCalls(rs)
    ensures var m := MergeAll(rs);
            && (RealName(m).Some? <==> exists i :: 0 <= i < |rs| && RealName(rs[i]).Some?)
            && (RealStatus(m).Some? <==> exists i :: 0 <= i < |rs| && RealStatus(rs[i]).Some?)
            && (m.callId.Some? <==> exists i :: 0 <= i < |rs| && CallOf(rs[i]).Some?)
            && (m.outputIndex.Some? <==> exists i :: 0 <= i < |rs| && OutputOf(rs[i]).Some?)
  {
    MergedValues(rs);
    LastSomeExists(rs, RealName);
    LastSomeExists(rs, RealStatus);
    LastSomeExists(rs, CallOf);
    LastSomeExists(rs, OutputOf);
    LastRealIsReal(rs);
    FirstWithoutReal(rs);
  }

  lemma {:induction false} LastRealIsReal(rs: seq<Item>)
    ensures LastSome(rs, RealName) != Some("function_call")
    ensures LastSome(rs, RealStatus) != Some("arguments_done")
  {
    if rs != [] {
      LastRealIsReal(rs[..|rs| - 1]);
    }
  }

  lemma {:induction false} FirstWithoutReal(rs: seq<Item>)
    ensures LastSome(rs, RealName).None? ==> FirstSome(rs, NameOf) in {None, Some("function_call")}
    ensures LastSome(rs, RealStatus).None? ==> FirstSome(rs, StatusOf) in {None, Some("arguments_done")}
  {
    if rs != [] {
      FirstWithoutReal(rs[..|rs| - 1]);
    }
  }

  /** So one more report never makes the item poorer. */
  lemma RichnessNeverDecreases(x: Item, d: Item)
    ensures Richness(Merge(x, d)) >= Richness(x)
    ensures x.kind == d.kind == FunctionCall ==> Richness(Merge(x, d)) >= Richness(d)
  {
  }

  /** The report from which the merged item has its sequence number. */
  ghost predicate GivesSequence(merge: (Item, Item) -> Item, rich: Item -> nat, rs: seq<Item>, j: nat)
    requires j < |rs|
  {
    && (j == 0 || rich(rs[j]) > rich(MergeAllWith(merge, rs[..j])))
    && forall i :: j < i < |rs| ==> rich(rs[i]) <= rich(MergeAllWith(merge, rs[..i]))
  }

  ghost predicate TakesRicher(merge: (Item, Item) -> Item, rich: Item -> nat) {
    forall x: Item, d: Item {:trigger merge(x, d)} :: x.kind == d.kind == FunctionCall ==>
      && merge(x, d).kind == FunctionCall
      && merge(x, d).sequence == if rich(d) > rich(x) then d.sequence else x.sequence
  }

  lemma SequenceKept(merge: (Item, Item) -> Item, rich: Item -> nat, rs: seq<Item>, j: nat)
    requires |rs| > 1 && j < |rs| - 1 && GivesSequence(merge, rich, rs[..|rs| - 1], j)
    requires rich(rs[|rs| - 1]) <= rich(MergeAllWith(merge, rs[..|rs| - 1]))
    ensures GivesSequence(merge, rich, rs, j)
  {
    var before := rs[..|rs| - 1];
    assert before[..j] == rs[..j];
    forall i | j < i < |rs| ensures rich(rs[i]) <= rich(MergeAllWith(merge, rs[..i])) {
      if i < |rs| - 1 {
        assert before[..i] == rs[..i] && before[i] == rs[i];
      }
    }
  }

  lemma {:induction false} SequenceWith(merge: (Item, Item) -> Item, rich: Item -> nat, rs: seq<Item>)
    returns (j: nat)
    requires FunctionCalls(rs) && TakesRicher(merge, rich)
    ensures MergeAllWith(merge, rs).kind == FunctionCall
    ensures j < |rs| && GivesSequence(merge, rich, rs, j) && MergeAllWith(merge, rs).sequence == rs[j].sequence
  {
    var n := |rs| - 1;
    if n == 0 {
      return 0;
    }
    j := SequenceWith(merge, rich, rs[..n]);
    var x := MergeAllWith(merge, rs[..n]);
    assert MergeAllWith(merge, rs) == merge(x, rs[n]);
    if rich(rs[n]) > rich(x) {
      j := n;
    } else {
      SequenceKept(merge, rich, rs, j);
    }
  }

  /** The sequence number is that of the last report that was richer than all before it merged. */
  lemma MergedSequence(rs: seq<Item>) returns (j: nat)
    requires FunctionCalls(rs)
    ensures j < |rs| && GivesSequence(Merge, Richness, rs, j) && MergeAll(rs).sequence == rs[j].sequence
  {
    j := SequenceWith(Merge, Richness, rs);
  }

  // ---------- the whole stream ----------

  function WithKey(key: string): Item -> bool { (x: Item) => x.key == key }

  /** Reports that the observer looks at: it stops once it has 16 items. */
  function Active(): (Observed, Item) -> bool { (s: Observed, d: Item) => |s.items| < 16 }

  function ActiveReports(reports: seq<Item>): seq<Item> {
    Trail(Upserting(Merge), NOTHING, reports, Active())
  }

  ghost predicate KeepsKeys(merge: (Item, Item) -> Item) {
    forall x, d :: merge(x, d).key == x.key
  }

  /** Distinct keys in the order of their first report. */
  function FirstKeys(rs: seq<Item>): seq<string> {
    if rs == [] then []
    else
      var before, key := FirstKeys(rs[..|rs| - 1]), rs[|rs| - 1].key;
      if key in before then before else before + [key]
  }

  ghost predicate SeenMatches(s: Observed) {
    && |s.items| <= MAX_ITEMS
    && (forall i :: 0 <= i < |s.items| ==> s.items[i].key in s.seen && s.seen[s.items[i].key] == i)
    && (forall k :: k in s.seen ==> s.items[s.seen[k]].key == k)
  }

  ghost predicate KeysMatch(s: Observed, h: seq<Item>) {
    && |FirstKeys(h)| == |s.items|
    && (forall i :: 0 <= i < |s.items| ==> FirstKeys(h)[i] == s.items[i].key)
    && (forall i :: 0 <= i < |h| ==> h[i].key in s.seen)
  }

  /** The item is the merge of all reports with its key. */
  ghost predicate MergeOf(merge: (Item, Item) -> Item, x: Item, h: seq<Item>) {
    var mine := Filter(h, WithKey(x.key));
    mine != [] && x == MergeAllWith(merge, mine)
  }

  ghost predicate Merged(merge: (Item, Item) -> Item, s: Observed, h: seq<Item>) {
    SeenMatches(s) && KeysMatch(s, h) && forall i :: 0 <= i < |s.items| ==> MergeOf(merge, s.items[i], h)
  }

  lemma FirstKeysSnoc(h: seq<Item>, d: Item)
    ensures FirstKeys(h + [d]) == if d.key in FirstKeys(h) then FirstKeys(h) else FirstKeys(h) + [d.key]
  {
    assert (h + [d])[..|h|] == h;
  }

  lemma KeysAfterMerge(s: Observed, h: seq<Item>, d: Item, m: Item)
    requires SeenMatches(s) && KeysMatch(s, h) && d.key in s.seen && m.key == d.key
    ensures var t: Observed := Observed(s.seen, s.items[s.seen[d.key] := m]);
            SeenMatches(t) && KeysMatch(t, h + [d])
  {
    FirstKeysSnoc(h, d);
    assert FirstKeys(h)[s.seen[d.key]] == d.key;
    var g := h + [d];
    assert forall i :: 0 <= i < |g| ==> g[i].key in s.seen;
  }

  lemma SeenAfterNew(s: Observed, d: Item)
    requires SeenMatches(s) && |s.items| < MAX_ITEMS && d.key !in s.seen
    ensures var t: Observed := Observed(s.seen[d.key := |s.items|], s.items + [d]);
            SeenMatches(t)
  {
    var items, seen := s.items + [d], s.seen[d.key := |s.items|];
    assert forall i :: 0 <= i < |s.items| ==> items[i] == s.items[i] && items[i].key != d.key;
  }

  lemma KeyIsNew(s: Observed, h: seq<Item>, key: string)
    requires SeenMatches(s) && KeysMatch(s, h) && key !in s.seen
    ensures key !in FirstKeys(h)
  {
    assert forall i :: 0 <= i < |s.items| ==> FirstKeys(h)[i] in s.seen;
  }

  lemma KeysAfterNew(s: Observed, h: seq<Item>, d: Item)
    requires SeenMatches(s) && KeysMatch(s, h) && |s.items| < MAX_ITEMS && d.key !in s.seen
    ensures var t: Observed := Observed(s.seen[d.key := |s.items|], s.items + [d]);
            SeenMatches(t) && KeysMatch(t, h + [d])
  {
    FirstKeysSnoc(h, d);
    SeenAfterNew(s, d);
    KeyIsNew(s, h, d.key);
    var g := h + [d];
    assert forall i :: 0 <= i < |g| ==> g[i].key in s.seen[d.key := |s.items|];
  }

  lemma KeysStep(merge: (Item, Item) -> Item, s: Observed, h: seq<Item>, d: Item)
    requires KeepsKeys(merge) && SeenMatches(s) && KeysMatch(s, h) && |s.items| < MAX_ITEMS
    ensures SeenMatches(Upsert(merge, s, d)) && KeysMatch(Upsert(merge, s, d), h + [d])
  {
    if d.key in s.seen {
      KeysAfterMerge(s, h, d, merge(s.items[s.seen[d.key]], d));
    } else {
      KeysAfterNew(s, h, d);
    }
  }

  lemma MergeOfSnoc(merge: (Item, Item) -> Item, x: Item, h: seq<Item>, d: Item)
    requires KeepsKeys(merge) && MergeOf(merge, x, h)
    ensures MergeOf(merge, if d.key == x.key then merge(x, d) else x, h + [d])
  {
    FilterSnoc(h, d, WithKey(x.key));
    var mine := Filter(h, WithKey(x.key));
    assert mine + [] == mine;
    assert (mine + [d])[..|mine|] == mine;
  }

  lemma MergeOfFirst(merge: (Item, Item) -> Item, h: seq<Item>, d: Item)
    requires forall i :: 0 <= i < |h| ==> h[i].key != d.key
    ensures MergeOf(merge, d, h + [d])
  {
    FilterSnoc(h, d, WithKey(d.key));
    NoneWithKey(h, d.key);
    assert [] + [d] == [d];
  }

  lemma {:induction false} NoneWithKey(h: seq<Item>, key: string)
    requires forall i :: 0 <= i < |h| ==> h[i].key != key
    ensures Filter(h, WithKey(key)) == []
  {
    if h != [] {
      NoneWithKey(h[..|h| - 1], key);
    }
  }

  lemma ItemAfter(merge: (Item, Item) -> Item, s: Observed, d: Item, i: nat)
    requires SeenMatches(s) && |s.items| < MAX_ITEMS && i < |Upsert(merge, s, d).items|
    ensures Upsert(merge, s, d).items[i] ==
            if i == |s.items| then d
            else if d.key == s.items[i].key then merge(s.items[i], d)
            else s.items[i]
    ensures i == |s.items| ==> d.key !in s.seen
  {
  }

  lemma MergedStep(merge: (Item, Item) -> Item, s: Observed, h: seq<Item>, d: Item)
    requires KeepsKeys(merge) && Merged(merge, s, h)
    ensures Merged(merge, Upsert(merge, s, d), h + if Active()(s, d) then [d] else [])
  {
    if |s.items| < MAX_ITEMS {
      KeysStep(merge, s, h, d);
      var t := Upsert(merge, s, d);
      forall i | 0 <= i < |t.items| ensures MergeOf(merge, t.items[i], h + [d]) {
        ItemAfter(merge, s, d, i);
        if i < |s.items| {
          MergeOfSnoc(merge, s.items[i], h, d);
        } else {
          MergeOfFirst(merge, h, d);
        }
      }
    } else {
      assert h + [] == h;
    }
  }

  /** Deduplication by key, for any way of merging that keeps the key. */
  lemma KeyedMerge(merge: (Item, Item) -> Item, reports: seq<Item>)
    requires KeepsKeys(merge)
    ensures var active := Trail(Upserting(merge), NOTHING, reports, Active());
            active <= reports && Merged(merge, RunWith(merge, reports), active)
  {
    assert SeenMatches(NOTHING) && KeysMatch(NOTHING, []) && Merged(merge, NOTHING, []);
    var rel: (Observed, seq<Item>) -> bool := (s: Observed, h: seq<Item>) => Merged(merge, s, h);
    forall s, d, h {:trigger Upsert(merge, s, d), rel(s, h)} | rel(s, h)
      ensures rel(Upsert(merge, s, d), h + if Active()(s, d) then [d] else [])
    {
      MergedStep(merge, s, h, d);
    }
    TrailKeeps(Upserting(merge), NOTHING, reports, Active(), rel);
    var on: Observed -> bool := (s: Observed) => |s.items| < MAX_ITEMS;
    TrailPrefix(Upserting(merge), NOTHING, reports, on, Active());
  }

  /**
   For every stream: at most 16 items, with different keys, in the order in which the keys
   were first reported; each item is the merge of all reports with its key, up to the report
   that brought the sixteenth item.
   */
  lemma StreamIsMerged(reports: seq<Item>)
    ensures var s, active := RunReports(reports), ActiveReports(reports);
            && active <= reports
            && |s.items| <= 16
            && FirstKeys(active) == seq(|s.items|, i requires 0 <= i < |s.items| => s.items[i].key)
            && (forall i, j :: 0 <= i < j < |s.items| ==> s.items[i].key != s.items[j].key)
            && forall i :: 0 <= i < |s.items| ==> MergeOf(Merge, s.items[i], active)
  {
    MergeKeepsKeys();
    KeyedMerge(Merge, reports);
  }

  lemma MergeKeepsKeys()
    ensures KeepsKeys(Merge)
  {
  }

  // ---------- the order of two reports ----------

  ghost predicate Compatible<T(!new)>(a: Option<T>, b: Option<T>) {
    a.Some? && b.Some? ==> a == b
  }

  /** Two reports of one call that agree wherever both give a real value. */
  ghost predicate Agree(a: Item, b: Item) {
    && Compatible(RealName(a), RealName(b))
    && Compatible(RealStatus(a), RealStatus(b))
    && Compatible(a.callId, b.callId)
    && Compatible(a.outputIndex, b.outputIndex)
    && Compatible(a.responseId, b.responseId)
    && Compatible(a.itemId, b.itemId)
    && forall key :: key in ARGUMENT_FIELDS ==> Compatible(NonNull(a.metadata, key), NonNull(b.metadata, key))
  }

  /** The metadata that the decoders give a report with these fields. */
  function ReportMetadata(lib: Library, x: Item, arguments: Option<string>): map<string, Value> {
    FunctionCallMetadata(lib, x.responseId, x.itemId, x.callId, x.outputIndex, x.status, arguments, x.key)
  }

  /** What the two decoders of function calls guarantee of a report. */
  ghost predicate IsReport(x: Item) {
    && x.kind == FunctionCall
    && x.eventType == "tool.call.observed"
    && x.name.Some?
    && exists lib, arguments :: x.metadata == ReportMetadata(lib, x, arguments)
  }

  lemma DecodedReports(lib: Library, request: string, event: Value, item: Value, name: string, status: Option<string>)
    ensures IsReport(FunctionCallReport(lib, request, event, item, name, status))
  {
    var x := FunctionCallReport(lib, request, event, item, name, status);
    assert x.metadata == ReportMetadata(lib, x, ItemText(event, "arguments", item, "arguments"));
  }

  /** Apart from sequence number and status metadata, it does not matter which report comes first. */
  lemma FieldsCommute(a: Item, b: Item)
    requires IsReport(a) && IsReport(b) && a.key == b.key && Agree(a, b)
    ensures var ab, ba := Merge(a, b), Merge(b, a);
            ab.(sequence := 0, metadata := map[]) == ba.(sequence := 0, metadata := map[])
    ensures Merge(a, b).sequence == Merge(b, a).sequence <==> Richness(a) != Richness(b) || a.sequence == b.sequence
  {
  }

  ghost predicate PlainField(key: string) {
    key !in ID_FIELDS && key !in ARGUMENT_FIELDS && key != "status"
  }

  lemma PlainFieldsSame(lib: Library, lib': Library, x: Item, y: Item, args: Option<string>, args': Option<string>,
                        key: string)
    requires PlainField(key)
    requires x.key == y.key
    ensures FieldOf(ReportMetadata(lib, x, args), key) == FieldOf(ReportMetadata(lib', y, args'), key)
  {
  }

  /** The fields of a report's metadata, named. */
  lemma ReportFields(x: Item)
    requires IsReport(x)
    ensures FieldOf(x.metadata, "provider_response_id") == Some(OfString(x.responseId))
    ensures FieldOf(x.metadata, "provider_item_id") == Some(OfString(x.itemId))
    ensures FieldOf(x.metadata, "provider_call_id") == Some(OfString(x.callId))
    ensures FieldOf(x.metadata, "output_index") == Some(OfU32(x.outputIndex))
    ensures FieldOf(x.metadata, "status") == Some(OfString(x.status))
    ensures forall key :: key in ARGUMENT_FIELDS ==> key in x.metadata
  {
  }

  lemma FieldCommutes(a: Item, b: Item, key: string)
    requires IsReport(a) && IsReport(b) && a.key == b.key && Agree(a, b)
    requires key != "status"
    ensures FieldOf(Merge(a, b).metadata, key) == FieldOf(Merge(b, a).metadata, key)
  {
    MergedFields(a.metadata, b.metadata, key);
    MergedFields(b.metadata, a.metadata, key);
    if key in ID_FIELDS {
      ReportFields(a);
      ReportFields(b);
    } else if key in ARGUMENT_FIELDS {
      ReportFields(a);
      ReportFields(b);
      assert Compatible(NonNull(a.metadata, key), NonNull(b.metadata, key));
    } else {
      var lib, args :| a.metadata == ReportMetadata(lib, a, args);
      var lib', args' :| b.metadata == ReportMetadata(lib', b, args');
      PlainFieldsSame(lib, lib', a, b, args, args', key);
    }
  }

  /** One report has no status and the other only the placeholder. */
  predicate StatusGap(a: Item, b: Item) {
    || (a.status.None? && b.status == Some("arguments_done"))
    || (b.status.None? && a.status == Some("arguments_done"))
  }

  lemma StatusCommutes(a: Item, b: Item)
    requires IsReport(a) && IsReport(b) && Agree(a, b)
    ensures FieldOf(Merge(a, b).metadata, "status") == FieldOf(Merge(b, a).metadata, "status") <==> !StatusGap(a, b)
  {
    FieldClasses();
    ReportFields(a);
    ReportFields(b);
    MergedFields(a.metadata, b.metadata, "status");
    MergedFields(b.metadata, a.metadata, "status");
  }

  /**
   Two reports of one call that agree merge to the same item in both orders, exactly when
   their richness or their sequence numbers settle the sequence and no status gap exists.
   */
  lemma MergeCommutesExactly(a: Item, b: Item)
    requires IsReport(a) && IsReport(b) && a.key == b.key && Agree(a, b)
    ensures Merge(a, b) == Merge(b, a) <==>
      (Richness(a) != Richness(b) || a.sequence == b.sequence) && !StatusGap(a, b)
  {
    FieldsCommute(a, b);
    StatusCommutes(a, b);
    var ab, ba := Merge(a, b), Merge(b, a);
    forall key | key != "status" ensures FieldOf(ab.metadata, key) == FieldOf(ba.metadata, key) {
      FieldCommutes(a, b, key);
    }
    SameFieldsSameMap(ab.metadata, ba.metadata);
    assert ab == ba <==> ab.sequence == ba.sequence && ab.metadata == ba.metadata;
  }

  lemma SameFieldsSameMap(m: map<string, Value>, n: map<string, Value>)
    requires forall key :: key != "status" ==> FieldOf(m, key) == FieldOf(n, key)
    ensures m == n <==> FieldOf(m, "status") == FieldOf(n, "status")
  {
    if FieldOf(m, "status") == FieldOf(n, "status") {
      assert forall key :: FieldOf(m, key) == FieldOf(n, key);
      assert m.Keys == n.Keys by {
        forall key ensures key in m <==> key in n {
          assert FieldOf(m, key) == FieldOf(n, key);
        }
      }
      forall key | key in m ensures m[key] == n[key] {
        assert FieldOf(m, key) == FieldOf(n, key);
      }
    }
  }

  ghost predicate Reports(rs: seq<Item>) {
    rs != [] && forall i :: 0 <= i < |rs| ==> IsReport(rs[i])
  }

  lemma StatusStep(x: Item, d: Item, status: Option<string>)
    requires x.kind == FunctionCall && IsReport(d) && FieldOf(x.metadata, "status") == Some(OfString(status))
    ensures FieldOf(Merge(x, d).metadata, "status") == Some(OfString(OrElse(RealStatus(d), status)))
  {
    FieldClasses();
    ReportFields(d);
    MergedItemField(x, d, "status");
  }

  /** In the metadata, the last real status wins; without one, that of the first report stays, even if it has none. */
  lemma {:induction false} MergedStatusMetadata(rs: seq<Item>)
    requires Reports(rs)
    ensures FieldOf(MergeAll(rs).metadata, "status") == Some(OfString(OrElse(LastSome(rs, RealStatus), rs[0].status)))
  {
    var n := |rs| - 1;
    if n == 0 {
      assert rs[..0] == [];
      ReportFields(rs[0]);
    } else {
      MergedStatusMetadata(rs[..n]);
      MergedKind(rs[..n]);
      StatusStep(MergeAll(rs[..n]), rs[n], OrElse(LastSome(rs[..n], RealStatus), rs[0].status));
    }
  }

  lemma {:induction false} FirstStatus(rs: seq<Item>)
    requires rs != []
    ensures rs[0].status.Some? ==> FirstSome(rs, StatusOf) == rs[0].status
  {
    if |rs| > 1 {
      FirstStatus(rs[..|rs| - 1]);
    } else {
      assert rs[..0] == [];
    }
  }

  /**
   For every list of reports of a call: the status in the metadata and the status of the item
   come apart if and only if the first report has no status and the others bring only placeholders.
   */
  lemma StatusMetadataLags(rs: seq<Item>)
    requires Reports(rs)
    ensures FieldOf(MergeAll(rs).metadata, "status") != Some(OfString(MergeAll(rs).status)) <==>
      rs[0].status.None? && LastSome(rs, RealStatus).None? && FirstSome(rs, StatusOf).Some?
  {
    MergedStatusMetadata(rs);
    MergedValues(rs);
    FirstStatus(rs);
  }

  /** The shortest such list: a report without status, then one that has only the placeholder. */
  lemma TwoReportsLag(a: Item, b: Item)
    requires IsReport(a) && IsReport(b) && a.status.None? && b.status == Some("arguments_done")
    ensures FieldOf(Merge(a, b).metadata, "status") == Some(Null) && Merge(a, b).status == Some("arguments_done")
  {
    ReportFields(a);
    StatusStep(a, b, None);
  }

  // ---------- the order of any number of reports ----------

  ghost predicate SameReports(rs: seq<Item>, ss: seq<Item>) {
    forall x :: x in rs <==> x in ss
  }

  ghost predicate AllCompatible<T(!new)>(rs: seq<Item>, f: Item -> Option<T>) {
    forall i, j :: 0 <= i < |rs| && 0 <= j < |rs| ==> Compatible(f(rs[i]), f(rs[j]))
  }

  /** Of values that agree, the first and the last are any of them. */
  lemma {:induction false} AnyValue<T(!new)>(rs: seq<Item>, f: Item -> Option<T>, i: nat)
    requires AllCompatible(rs, f) && i < |rs| && f(rs[i]).Some?
    ensures FirstSome(rs, f) == f(rs[i]) == LastSome(rs, f)
  {
    var n := |rs| - 1;
    var before := rs[..n];
    assert forall j :: 0 <= j < n ==> before[j] == rs[j];
    assert AllCompatible(before, f);
    LastSomeExists(before, f);
    FirstSomeExists(before, f);
    assert i < n ==> f(before[i]).Some?;
    if LastSome(before, f).Some? {
      var j :| 0 <= j < |before| && f(before[j]).Some?;
      AnyValue(before, f, j);
      assert Compatible(f(rs[j]), f(rs[i])) && Compatible(f(rs[j]), f(rs[n]));
    }
  }

  lemma {:induction false} FirstSomeExists<T>(rs: seq<Item>, f: Item -> Option<T>)
    ensures FirstSome(rs, f).Some? <==> LastSome(rs, f).Some?
  {
    if rs != [] {
      FirstSomeExists(rs[..|rs| - 1], f);
    }
  }

  lemma SameValues<T(!new)>(rs: seq<Item>, ss: seq<Item>, f: Item -> Option<T>)
    requires SameReports(rs, ss) && AllCompatible(rs, f)
    ensures LastSome(rs, f) == LastSome(ss, f) && FirstSome(rs, f) == FirstSome(ss, f)
  {
    LastSomeExists(rs, f);
    FirstSomeExists(rs, f);
    FirstSomeExists(ss, f);
    SamePresence(rs, ss, f);
    SameAreCompatible(rs, ss, f);
    if LastSome(rs, f).Some? {
      var i :| 0 <= i < |rs| && f(rs[i]).Some?;
      assert rs[i] in ss;
      var j :| 0 <= j < |ss| && ss[j] == rs[i];
      AnyValue(rs, f, i);
      AnyValue(ss, f, j);
    }
  }

  lemma SameAreCompatible<T(!new)>(rs: seq<Item>, ss: seq<Item>, f: Item -> Option<T>)
    requires SameReports(rs, ss) && AllCompatible(rs, f)
    ensures AllCompatible(ss, f)
  {
    forall i, j | 0 <= i < |ss| && 0 <= j < |ss| ensures Compatible(f(ss[i]), f(ss[j])) {
      assert ss[i] in rs && ss[j] in rs;
      var i' :| 0 <= i' < |rs| && rs[i'] == ss[i];
      var j' :| 0 <= j' < |rs| && rs[j'] == ss[j];
      assert Compatible(f(rs[i']), f(rs[j']));
    }
  }

  ghost predicate PairwiseAgree(rs: seq<Item>) {
    forall i, j :: 0 <= i < |rs| && 0 <= j < |rs| ==> Agree(rs[i], rs[j])
  }

  /** Reports of one call that agree differ in a name or status only as placeholder and real value. */
  lemma SameFields(rs: seq<Item>, ss: seq<Item>)
    requires FunctionCalls(rs) && FunctionCalls(ss) && SameReports(rs, ss) && PairwiseAgree(rs)
    ensures var a, b := MergeAll(rs), MergeAll(ss);
            && a.name == b.name && a.status == b.status && a.outputIndex == b.outputIndex
            && a.responseId == b.responseId && a.itemId == b.itemId && a.callId == b.callId
  {
    MergedValues(rs);
    MergedValues(ss);
    assert AllCompatible(rs, RealName) && AllCompatible(rs, RealStatus);
    SameValues(rs, ss, RealName);
    SameValues(rs, ss, RealStatus);
    SameValues(rs, ss, OutputOf);
    SameValues(rs, ss, ResponseOf);
    SameValues(rs, ss, ItemIdOf);
    SameValues(rs, ss, CallOf);
    SamePlaceholders(rs, ss);
  }

  lemma SamePlaceholders(rs: seq<Item>, ss: seq<Item>)
    requires SameReports(rs, ss)
    ensures LastSome(rs, RealName).None? && LastSome(ss, RealName).None? ==>
              FirstSome(rs, NameOf) == FirstSome(ss, NameOf)
    ensures LastSome(rs, RealStatus).None? && LastSome(ss, RealStatus).None? ==>
              FirstSome(rs, StatusOf) == FirstSome(ss, StatusOf)
  {
    FirstWithoutReal(rs);
    FirstWithoutReal(ss);
    SamePresence(rs, ss, NameOf);
    SamePresence(rs, ss, StatusOf);
  }

  lemma SamePresence<T>(rs: seq<Item>, ss: seq<Item>, f: Item -> Option<T>)
    requires SameReports(rs, ss)
    ensures FirstSome(rs, f).Some? <==> FirstSome(ss, f).Some?
  {
    FirstSomeExists(rs, f);
    FirstSomeExists(ss, f);
    LastSomeExists(rs, f);
    LastSomeExists(ss, f);
    if FirstSome(rs, f).Some? {
      var i :| 0 <= i < |rs| && f(rs[i]).Some?;
      assert rs[i] in ss;
    }
    if FirstSome(ss, f).Some? {
      var i :| 0 <= i < |ss| && f(ss[i]).Some?;
      assert ss[i] in rs;
    }
  }

  lemma IdFieldsCompatible(a: Item, b: Item, key: string)
    requires IsReport(a) && IsReport(b) && Agree(a, b) && key in ID_FIELDS
    ensures Compatible(NonNull(a.metadata, key), NonNull(b.metadata, key))
  {
    ReportFields(a);
    ReportFields(b);
  }

  lemma SameMetadata(rs: seq<Item>, ss: seq<Item>, key: string)
    requires Reports(rs) && Reports(ss) && SameReports(rs, ss) && PairwiseAgree(rs)
    requires key in ID_FIELDS || key in ARGUMENT_FIELDS
    ensures NonNull(MergeAll(rs).metadata, key) == NonNull(MergeAll(ss).metadata, key)
  {
    MergedMetadataValues(rs, key);
    MergedMetadataValues(ss, key);
    forall i, j | 0 <= i < |rs| && 0 <= j < |rs|
      ensures Compatible(FieldReader(key)(rs[i]), FieldReader(key)(rs[j]))
    {
      assert Agree(rs[i], rs[j]);
      if key in ID_FIELDS {
        IdFieldsCompatible(rs[i], rs[j], key);
      }
    }
    SameValues(rs, ss, FieldReader(key));
  }

  /**
   Any number of reports of one call that agree, in any order and with any repetition: name,
   status, ids, output index and their metadata and that of the arguments come out the same, and
   the status in the metadata exactly if some report has a real status or the first ones have the same.
   */
  lemma OrderDoesNotMatter(rs: seq<Item>, ss: seq<Item>)
    requires Reports(rs) && Reports(ss) && SameReports(rs, ss) && PairwiseAgree(rs)
    ensures var a, b := MergeAll(rs), MergeAll(ss);
            && a.name == b.name && a.status == b.status && a.outputIndex == b.outputIndex
            && a.responseId == b.responseId && a.itemId == b.itemId && a.callId == b.callId
    ensures forall key :: key in ID_FIELDS || key in ARGUMENT_FIELDS ==>
              NonNull(MergeAll(rs).metadata, key) == NonNull(MergeAll(ss).metadata, key)
    ensures FieldOf(MergeAll(rs).metadata, "status") == FieldOf(MergeAll(ss).metadata, "status")
       <==> LastSome(rs, RealStatus).Some? || rs[0].status == ss[0].status
  {
    SameFields(rs, ss);
    forall key | key in ID_FIELDS || key in ARGUMENT_FIELDS
      ensures NonNull(MergeAll(rs).metadata, key) == NonNull(MergeAll(ss).metadata, key)
    {
      SameMetadata(rs, ss, key);
    }
    MergedStatusMetadata(rs);
    MergedStatusMetadata(ss);
    assert AllCompatible(rs, RealStatus);
    SameValues(rs, ss, RealStatus);
  }
}
