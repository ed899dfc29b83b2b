/**
 When every delta carries an index, the observer is a group-by on (choice, index): exactly
 when no delta brings a known id to a slot that has no draft.
 */
module ChatStreamGroupBy {
  import opened Wrappers
  import opened Runs
  import opened ChatStream
  import opened ChatStreamSafety
  import opened ChatStreamHistory

  // ---------- the group-by ----------

  datatype Slot = Slot(choice: u32, index: u32)

  predicate AllIndexed(es: seq<Event>) {
    forall j :: 0 <= j < |es| ==> HasIndex(es[j])
  }

  predicate HasIndex(e: Event) {
    e.Chunk? ==> e.delta.index.Some?
  }

  function SlotOf(e: Event): Slot
    requires e.Chunk? && HasIndex(e)
  {
    Slot(e.delta.choice, e.delta.index.value)
  }

  function InSlot(s: Slot): Event -> bool {
    (e: Event) => e.Chunk? && e.delta.choice == s.choice && e.delta.index == Some(s.index)
  }

  /** The first 16 distinct slots, in the order in which they first appear. */
  function Slots(es: seq<Event>): (r: seq<Slot>)
    requires AllIndexed(es)
    ensures |r| <= MAX_DRAFTS
    ensures forall i, j :: 0 <= i < j < |r| ==> r[i] != r[j]
  {
    if es == [] then []
    else
      var before, e := Slots(es[..|es| - 1]), es[|es| - 1];
      if e.Chunk? && SlotOf(e) !in before && |before| < MAX_DRAFTS then before + [SlotOf(e)] else before
  }

  /** The group of a slot: its place among the slots so far, or the next free place. */
  predicate GroupsAs(slots: seq<Slot>, s: Slot, to: Option<nat>) {
    if s in slots then to.Some? && to.value < |slots| && slots[to.value] == s
    else if |slots| < MAX_DRAFTS then to == Some(|slots|)
    else to.None?
  }

  /** Every delta goes to the draft of its slot. */
  ghost predicate RoutesBySlot(es: seq<Event>)
    requires AllIndexed(es)
  {
    forall j :: 0 <= j < |es| && es[j].Chunk? ==>
      GroupsAs(Slots(es[..j]), SlotOf(es[j]), Route(Run(es[..j]), es[j].delta))
  }

  // ---------- the condition ----------

  /** Some delta of a slot with a draft carried this id in this choice. */
  ghost predicate IdTaken(es: seq<Event>, choice: u32, id: string)
    requires AllIndexed(es)
  {
    exists i :: 0 <= i < |es| && es[i].Chunk? && es[i].delta.choice == choice
             && es[i].delta.id == Some(id) && SlotOf(es[i]) in Slots(es)
  }

  /** The delta does not bring a taken id to a slot without a draft. */
  ghost predicate CleanAfter(es: seq<Event>, e: Event)
    requires AllIndexed(es)
    requires HasIndex(e)
  {
    e.Chunk? && SlotOf(e) !in Slots(es) && e.delta.id.Some? ==> !IdTaken(es, e.delta.choice, e.delta.id.value)
  }

  ghost predicate Clean(es: seq<Event>)
    requires AllIndexed(es)
  {
    forall j :: 0 <= j < |es| ==> CleanAfter(es[..j], es[j])
  }

  // ---------- the table of a grouped stream ----------

  ghost predicate SlotsMatch(slots: seq<Slot>, t: Table) {
    && |t.drafts| == |slots|
    && (forall k :: 0 <= k < |slots| ==>
        t.drafts[k].choice == slots[k].choice && t.drafts[k].index == Some(slots[k].index))
    && (forall k :: k in t.indexes && k.Indexed? ==> slots[t.indexes[k]] == Slot(k.choice, k.index))
  }

  ghost predicate IdsMatch(es: seq<Event>, t: Table)
    requires AllIndexed(es)
  {
    forall c, a :: ProviderId(c, a) in t.indexes <==> IdTaken(es, c, a)
  }

  ghost predicate AllOwned(es: seq<Event>)
    requires AllIndexed(es)
  {
    |Slots(es)| < MAX_DRAFTS ==> forall i :: 0 <= i < |es| && es[i].Chunk? ==> SlotOf(es[i]) in Slots(es)
  }

  ghost predicate Grouped(es: seq<Event>)
    requires AllIndexed(es)
  {
    SlotsMatch(Slots(es), Run(es)) && IdsMatch(es, Run(es)) && AllOwned(es)
  }

  /** In a grouped table a delta goes to its slot exactly when it is clean. */
  lemma RouteIffClean(t: Table, slots: seq<Slot>, d: Delta)
    requires Inv(t) && SlotsMatch(slots, t)
    requires d.index.Some?
    ensures GroupsAs(slots, Slot(d.choice, d.index.value), Route(t, d))
       <==> Slot(d.choice, d.index.value) in slots || d.id.None? || ProviderId(d.choice, d.id.value) !in t.indexes
  {
    var s := Slot(d.choice, d.index.value);
    LookupHit(t.indexes, Keys(d));
    KeysOf(d);
    assert Keys(d)[0] == Indexed(s.choice, s.index);
    if s in slots {
      var k :| 0 <= k < |slots| && slots[k] == s;
      assert Points(t, Indexed(t.drafts[k].choice, t.drafts[k].index.value), k);
    } else if Lookup(t.indexes, Keys(d)).None? {
      FallbackScansMiss(t, d);
    } else {
      assert Lookup(t.indexes, Keys(d)).value < |slots|;
    }
  }

  lemma SlotsSnoc(es: seq<Event>, e: Event)
    requires AllIndexed(es) && HasIndex(e)
    ensures AllIndexed(es + [e])
    ensures Slots(es + [e]) == if e.Chunk? && SlotOf(e) !in Slots(es) && |Slots(es)| < MAX_DRAFTS
                               then Slots(es) + [SlotOf(e)] else Slots(es)
  {
    var g := es + [e];
    assert g[..|es|] == es;
  }

  lemma OwnedSnoc(es: seq<Event>, e: Event)
    requires AllIndexed(es) && HasIndex(e) && AllIndexed(es + [e]) && AllOwned(es)
    ensures AllOwned(es + [e])
  {
    SlotsSnoc(es, e);
    var g := es + [e];
    forall i | 0 <= i < |g| && g[i].Chunk? && |Slots(g)| < MAX_DRAFTS ensures SlotOf(g[i]) in Slots(g) {
      assert i < |es| ==> g[i] == es[i];
    }
  }

  /** Which ids are taken after one more event. */
  lemma IdTakenSnoc(es: seq<Event>, e: Event, c: u32, a: string)
    requires AllIndexed(es) && HasIndex(e) && AllIndexed(es + [e]) && AllOwned(es)
    ensures IdTaken(es + [e], c, a) <==>
      || IdTaken(es, c, a)
      || (e.Chunk? && e.delta.choice == c && e.delta.id == Some(a) && SlotOf(e) in Slots(es + [e]))
  {
    SlotsSnoc(es, e);
    var g := es + [e];
    assert forall i :: 0 <= i < |es| ==> g[i] == es[i];
    assert g[|es|] == e;
    if IdTaken(es, c, a) {
      var i :| 0 <= i < |es| && es[i].Chunk? && es[i].delta.choice == c
             && es[i].delta.id == Some(a) && SlotOf(es[i]) in Slots(es);
      assert SlotOf(g[i]) in Slots(g);
    }
    if IdTaken(g, c, a) {
      var i :| 0 <= i < |g| && g[i].Chunk? && g[i].delta.choice == c
             && g[i].delta.id == Some(a) && SlotOf(g[i]) in Slots(g);
      assert i < |es| ==> SlotOf(es[i]) in Slots(es);
    }
  }

  lemma SlotsMatchDelivered(slots: seq<Slot>, t: Table, r: Table, d: Delta, i: nat)
    requires SlotsMatch(slots, t) && d.index.Some?
    requires i <= |t.drafts| && Delivered(t, r, d, i)
    requires GroupsAs(slots, Slot(d.choice, d.index.value), Some(i))
    ensures SlotsMatch(if i == |slots| then slots + [Slot(d.choice, d.index.value)] else slots, r)
  {
    forall k | k in r.indexes && k.Indexed?
      ensures (if i == |slots| then slots + [Slot(d.choice, d.index.value)] else slots)[r.indexes[k]]
          == Slot(k.choice, k.index)
    {
      assert KeyOf(k, d) ==> Points(r, k, i);
    }
  }

  lemma IdsMatchDelivered(es: seq<Event>, e: Event, t: Table, r: Table, i: nat)
    requires AllIndexed(es) && HasIndex(e) && AllIndexed(es + [e]) && AllOwned(es) && IdsMatch(es, t)
    requires e.Chunk? && SlotOf(e) in Slots(es + [e])
    requires i <= |t.drafts| && Delivered(t, r, e.delta, i)
    ensures IdsMatch(es + [e], r)
  {
    forall c, a ensures ProviderId(c, a) in r.indexes <==> IdTaken(es + [e], c, a) {
      IdTakenSnoc(es, e, c, a);
      assert KeyOf(ProviderId(c, a), e.delta) ==> Points(r, ProviderId(c, a), i);
    }
  }

  lemma GroupedDelivered(es: seq<Event>, e: Event, t: Table, r: Table, i: nat)
    requires AllIndexed(es) && HasIndex(e) && AllIndexed(es + [e])
    requires SlotsMatch(Slots(es), t) && IdsMatch(es, t) && AllOwned(es)
    requires e.Chunk? && i <= |t.drafts| && Delivered(t, r, e.delta, i)
    requires GroupsAs(Slots(es), SlotOf(e), Some(i))
    ensures SlotsMatch(Slots(es + [e]), r) && IdsMatch(es + [e], r)
  {
    SlotsSnoc(es, e);
    SlotsMatchDelivered(Slots(es), t, r, e.delta, i);
    IdsMatchDelivered(es, e, t, r, i);
  }

  lemma GroupedUntouched(es: seq<Event>, e: Event, t: Table, r: Table)
    requires AllIndexed(es) && HasIndex(e) && AllIndexed(es + [e])
    requires SlotsMatch(Slots(es), t) && IdsMatch(es, t) && AllOwned(es)
    requires e.Chunk? ==> GroupsAs(Slots(es), SlotOf(e), None)
    requires r.indexes == t.indexes && |r.drafts| == |t.drafts|
    requires forall k :: 0 <= k < |r.drafts| ==>
      r.drafts[k].choice == t.drafts[k].choice && r.drafts[k].index == t.drafts[k].index
    ensures SlotsMatch(Slots(es + [e]), r) && IdsMatch(es + [e], r)
  {
    SlotsSnoc(es, e);
    forall c, a ensures ProviderId(c, a) in r.indexes <==> IdTaken(es + [e], c, a) {
      IdTakenSnoc(es, e, c, a);
    }
  }

  lemma GroupedStep(es: seq<Event>, e: Event, t: Table)
    requires AllIndexed(es) && HasIndex(e) && AllIndexed(es + [e])
    requires Inv(t) && SlotsMatch(Slots(es), t) && IdsMatch(es, t) && AllOwned(es)
    requires e.Chunk? ==> GroupsAs(Slots(es), SlotOf(e), Route(t, e.delta))
    ensures SlotsMatch(Slots(es + [e]), Apply(t, e)) && IdsMatch(es + [e], Apply(t, e))
  {
    if e.Chunk? && Route(t, e.delta).Some? {
      var i := Route(t, e.delta).value;
      RouteFits(t, e.delta);
      DeliverEffect(t, e.delta, e.reason, e.afterDone, i);
      GroupedDelivered(es, e, t, Deliver(t, e.delta, e.reason, e.afterDone, i), i);
    } else {
      GroupedUntouched(es, e, t, Apply(t, e));
    }
  }

  lemma GroupedSnoc(es: seq<Event>, e: Event)
    requires AllIndexed(es) && HasIndex(e) && AllIndexed(es + [e]) && Grouped(es)
    requires e.Chunk? ==> GroupsAs(Slots(es), SlotOf(e), Route(Run(es), e.delta))
    ensures Grouped(es + [e])
  {
    RunInv(es);
    RunSnoc(es, e);
    OwnedSnoc(es, e);
    GroupedStep(es, e, Run(es));
  }

  lemma PrefixIndexed(es: seq<Event>)
    requires AllIndexed(es) && es != []
    ensures AllIndexed(es[..|es| - 1])
    ensures es == es[..|es| - 1] + [es[|es| - 1]]
  {
    var p := es[..|es| - 1];
    assert forall j :: 0 <= j < |p| ==> p[j] == es[j];
  }

  lemma PrefixClean(es: seq<Event>)
    requires AllIndexed(es) && es != []
    ensures AllIndexed(es[..|es| - 1])
    ensures Clean(es) <==> Clean(es[..|es| - 1]) && CleanAfter(es[..|es| - 1], es[|es| - 1])
    ensures RoutesBySlot(es) <==>
      && RoutesBySlot(es[..|es| - 1])
      && var e := es[|es| - 1];
         (e.Chunk? ==> GroupsAs(Slots(es[..|es| - 1]), SlotOf(e), Route(Run(es[..|es| - 1]), e.delta)))
  {
    PrefixIndexed(es);
    var n := |es| - 1;
    var p := es[..n];
    forall j | 0 <= j < n ensures p[..j] == es[..j] && p[j] == es[j] {
    }
  }

  /**
   For every stream of indexed deltas: each delta goes to the draft of its slot, for the
   whole stream, if and only if the stream is clean.
   */
  lemma {:induction false} GroupByExactlyWhenClean(es: seq<Event>)
    requires AllIndexed(es)
    ensures RoutesBySlot(es) <==> Clean(es)
    ensures Clean(es) ==> Grouped(es)
  {
    if es != [] {
      var n := |es| - 1;
      var p, e := es[..n], es[n];
      PrefixIndexed(es);
      GroupByExactlyWhenClean(p);
      PrefixClean(es);
      if Clean(p) {
        RunInv(p);
        if e.Chunk? {
          RouteIffClean(Run(p), Slots(p), e.delta);
        }
        if CleanAfter(p, e) {
          GroupedSnoc(p, e);
        }
      }
    }
  }

  // ---------- the refinement ----------

  lemma GroupPoint(slots: seq<Slot>, after: seq<Slot>, s: Slot, to: Option<nat>, k: nat)
    requires GroupsAs(slots, s, to)
    requires after == if s !in slots && |slots| < MAX_DRAFTS then slots + [s] else slots
    requires forall i, j :: 0 <= i < j < |slots| ==> slots[i] != slots[j]
    requires k < |after|
    ensures to == Some(k) <==> after[k] == s
  {
  }

  /** One more event reaches a draft exactly when it belongs to the slot of the draft. */
  lemma RoutedIffInSlot(p: seq<Event>, e: Event, k: nat)
    requires AllIndexed(p) && HasIndex(e) && AllIndexed(p + [e])
    requires e.Chunk? ==> GroupsAs(Slots(p), SlotOf(e), Route(Run(p), e.delta))
    requires k < |Slots(p + [e])|
    ensures RoutedTo(k)(Run(p), e) == InSlot(Slots(p + [e])[k])(e)
  {
    SlotsSnoc(p, e);
    if e.Chunk? {
      GroupPoint(Slots(p), Slots(p + [e]), SlotOf(e), Route(Run(p), e.delta), k);
    }
  }

  lemma NewSlotIsEmpty(p: seq<Event>, e: Event, k: nat)
    requires AllIndexed(p) && HasIndex(e) && AllIndexed(p + [e]) && Grouped(p)
    requires |Slots(p)| <= k < |Slots(p + [e])|
    ensures Filter(p, InSlot(Slots(p + [e])[k])) == []
    ensures Filter(Hist(p, k), IsChunk) == []
  {
    SlotsSnoc(p, e);
    DraftsSummarizeHistories(p, k);
    NoneInSlot(p, Slots(p + [e])[k]);
  }

  /** The chunks that a draft takes are those of its slot. */
  lemma {:induction false} ChunksOfSlot(es: seq<Event>, k: nat)
    requires AllIndexed(es) && RoutesBySlot(es) && k < |Slots(es)|
    ensures Filter(Hist(es, k), IsChunk) == Filter(es, InSlot(Slots(es)[k]))
  {
    var n := |es| - 1;
    var p, e := es[..n], es[n];
    PrefixIndexed(es);
    PrefixClean(es);
    SlotsSnoc(p, e);
    var s := Slots(es)[k];
    FilterSnoc(p, e, InSlot(s));
    ChunksOfHistory(es, k);
    ChunksOfHistory(p, k);
    TrailSnoc(Apply, EMPTY, p, e, RoutedTo(k));
    RoutedIffInSlot(p, e, k);
    if k < |Slots(p)| {
      ChunksOfSlot(p, k);
    } else {
      GroupByExactlyWhenClean(p);
      NewSlotIsEmpty(p, e, k);
    }
  }

  lemma {:induction false} NoneInSlot(es: seq<Event>, s: Slot)
    requires forall i :: 0 <= i < |es| ==> !InSlot(s)(es[i])
    ensures Filter(es, InSlot(s)) == []
  {
    if es != [] {
      NoneInSlot(es[..|es| - 1], s);
    }
  }

  lemma {:induction false} FirstSomeOfChunks<T>(h: seq<Event>, f: Event -> Option<T>)
    requires forall e: Event :: e.Finish? ==> f(e).None?
    ensures FirstSome(h, f) == FirstSome(Filter(h, IsChunk), f)
  {
    if h != [] {
      var n := |h| - 1;
      FirstSomeOfChunks(h[..n], f);
      FirstSomeSnoc(Filter(h[..n], IsChunk), h[n], f);
      assert Filter(h[..n], IsChunk) + [] == Filter(h[..n], IsChunk);
    }
  }

  lemma {:induction false} JoinedOfChunks(h: seq<Event>)
    ensures Joined(h) == Joined(Filter(h, IsChunk))
  {
    if h != [] {
      var n := |h| - 1;
      JoinedOfChunks(h[..n]);
      OverflowsSnoc(Filter(h[..n], IsChunk), h[n]);
      assert Filter(h[..n], IsChunk) + [] == Filter(h[..n], IsChunk);
      assert Joined(h[..n]) + "" == Joined(h[..n]);
    }
  }

  lemma {:induction false} OverflowsOfChunks(h: seq<Event>)
    ensures Overflows(h) == Overflows(Filter(h, IsChunk))
  {
    if h != [] {
      var n := |h| - 1;
      assert h[..n] + [h[n]] == h;
      OverflowsOfChunks(h[..n]);
      JoinedOfChunks(h[..n]);
      OverflowsSnoc(h[..n], h[n]);
      OverflowsSnoc(Filter(h[..n], IsChunk), h[n]);
      assert Filter(h[..n], IsChunk) + [] == Filter(h[..n], IsChunk);
    }
  }

  /** The deltas of a slot, and the finish reasons of its choice from its first delta on. */
  function OfSlot(es: seq<Event>, s: Slot): seq<Event> {
    if es == [] then []
    else
      var before, e := OfSlot(es[..|es| - 1], s), es[|es| - 1];
      if InSlot(s)(e) || (e.Finish? && e.choice == s.choice && before != []) then before + [e] else before
  }

  lemma {:induction false} NoneOfSlot(es: seq<Event>, s: Slot)
    requires forall i :: 0 <= i < |es| ==> !InSlot(s)(es[i])
    ensures OfSlot(es, s) == []
  {
    if es != [] {
      NoneOfSlot(es[..|es| - 1], s);
    }
  }

  lemma ReachesSlot(p: seq<Event>, e: Event, k: nat)
    requires AllIndexed(p) && HasIndex(e) && AllIndexed(p + [e]) && Grouped(p)
    requires e.Chunk? ==> GroupsAs(Slots(p), SlotOf(e), Route(Run(p), e.delta))
    requires k < |Slots(p + [e])|
    ensures var s := Slots(p + [e])[k];
            Reaching(k)(Run(p), e) <==> InSlot(s)(e) || (e.Finish? && e.choice == s.choice && k < |Slots(p)|)
  {
    RoutedIffInSlot(p, e, k);
    SlotsSnoc(p, e);
  }

  lemma HistoryStarts(p: seq<Event>, k: nat)
    requires AllIndexed(p) && Grouped(p)
    ensures Hist(p, k) != [] <==> k < |Slots(p)|
  {
    DraftsSummarizeHistories(p, k);
  }

  lemma HistorySnoc(p: seq<Event>, e: Event, k: nat)
    ensures Hist(p + [e], k) == if Reaching(k)(Run(p), e) then Hist(p, k) + [e] else Hist(p, k)
  {
    TrailSnoc(Apply, EMPTY, p, e, Reaching(k));
  }

  lemma OfSlotSnoc(p: seq<Event>, e: Event, s: Slot)
    ensures var before := OfSlot(p, s);
            OfSlot(p + [e], s)
            == if InSlot(s)(e) || (e.Finish? && e.choice == s.choice && before != []) then before + [e] else before
  {
    assert (p + [e])[..|p|] == p;
  }

  lemma HistoryNext(p: seq<Event>, e: Event, k: nat)
    requires AllIndexed(p) && HasIndex(e) && AllIndexed(p + [e]) && Grouped(p)
    requires e.Chunk? ==> GroupsAs(Slots(p), SlotOf(e), Route(Run(p), e.delta))
    requires k < |Slots(p + [e])| && Hist(p, k) == OfSlot(p, Slots(p + [e])[k])
    ensures Hist(p + [e], k) == OfSlot(p + [e], Slots(p + [e])[k])
  {
    HistoryStarts(p, k);
    ReachesSlot(p, e, k);
    HistorySnoc(p, e, k);
    OfSlotSnoc(p, e, Slots(p + [e])[k]);
  }

  lemma NewSlotHasNoHistory(p: seq<Event>, e: Event, k: nat)
    requires AllIndexed(p) && HasIndex(e) && AllIndexed(p + [e]) && Grouped(p)
    requires |Slots(p)| <= k < |Slots(p + [e])|
    ensures Hist(p, k) == OfSlot(p, Slots(p + [e])[k])
  {
    HistoryStarts(p, k);
    SlotsSnoc(p, e);
    NoneOfSlot(p, Slots(p + [e])[k]);
  }

  /** What reaches a draft is what belongs to its slot. */
  lemma {:induction false} HistoryOfSlot(es: seq<Event>, k: nat)
    requires AllIndexed(es) && RoutesBySlot(es) && k < |Slots(es)|
    ensures Hist(es, k) == OfSlot(es, Slots(es)[k])
  {
    var p, e := es[..|es| - 1], es[|es| - 1];
    PrefixIndexed(es);
    PrefixClean(es);
    GroupByExactlyWhenClean(p);
    if k < |Slots(p)| {
      HistoryOfSlot(p, k);
      SlotsSnoc(p, e);
    } else {
      NewSlotHasNoHistory(p, e, k);
    }
    HistoryNext(p, e, k);
  }

  /**
   On a clean stream of indexed deltas the k-th draft is the k-th distinct slot in order of
   appearance, and it is the summary of that slot alone: the first id, name and type given,
   the first 16384 characters of all fragments in order, whether more came, their number,
   and the first finish reason after the slot appeared.
   */
  lemma GroupByRefinement(es: seq<Event>, k: nat)
    requires AllIndexed(es) && Clean(es)
    requires k < |Slots(es)|
    ensures |Run(es).drafts| == |Slots(es)|
    ensures var x, s := Run(es).drafts[k], Slots(es)[k];
            var group, all := Filter(es, InSlot(s)), OfSlot(es, s);
            && x.choice == s.choice
            && x.index == Some(s.index)
            && x.id == FirstSome(group, IdOf)
            && x.name == FirstSome(group, NameOf)
            && x.kind == FirstSome(group, KindOf)
            && x.arguments == Capped(Joined(group))
            && x.truncated == Overflows(group)
            && x.chunks == Min(|group|, U32_MAX)
            && x.finish == FirstSome(all, ReasonOf)
            && x.done == AnyAfterDone(all)
  {
    GroupByExactlyWhenClean(es);
    ChunksOfSlot(es, k);
    HistoryOfSlot(es, k);
    DraftsSummarizeHistories(es, k);
    var h := Hist(es, k);
    FirstSomeOfChunks(h, IdOf);
    FirstSomeOfChunks(h, NameOf);
    FirstSomeOfChunks(h, KindOf);
    JoinedOfChunks(h);
    OverflowsOfChunks(h);
  }

  /** No id is used with two indexes in one choice. */
  predicate ConsistentIds(es: seq<Event>) {
    forall i, j :: 0 <= i < j < |es| && es[i].Chunk? && es[j].Chunk? && es[i].delta.choice == es[j].delta.choice ==>
        es[i].delta.id.Some? && es[i].delta.id == es[j].delta.id ==> es[i].delta.index == es[j].delta.index
  }

  lemma ConsistentIdsAreClean(es: seq<Event>)
    requires AllIndexed(es) && ConsistentIds(es)
    ensures Clean(es)
  {
    forall j | 0 <= j < |es| ensures CleanAfter(es[..j], es[j]) {
      var p, e := es[..j], es[j];
      assert forall i :: 0 <= i < |p| ==> p[i] == es[i];
    }
  }

  /** One id under two indexes: the second slot gets no draft of its own. */
  lemma ReusedIdMergesSlots(first: Event, second: Event)
    requires first.Chunk? && second.Chunk? && HasIndex(first) && HasIndex(second)
    requires first.delta.choice == second.delta.choice && first.delta.index != second.delta.index
    requires first.delta.id.Some? && first.delta.id == second.delta.id
    ensures !RoutesBySlot([first, second])
  {
    var es, p := [first, second], [first];
    assert es[..1] == p == [] + [first];
    SlotsSnoc([], first);
    assert Slots(p) == [SlotOf(first)];
    assert IdTaken(p, first.delta.choice, first.delta.id.value) by {
      assert p[0] == first;
    }
    assert !CleanAfter(es[..1], es[1]);
    GroupByExactlyWhenClean(es);
  }
}
