/**
 Every draft is a summary of the events that reached it, and no delta is counted twice or
 lost except by the cap on the number of drafts.
 */
module ChatStreamHistory {
  import opened Wrappers
  import opened Runs
  import opened ChatStream
  import opened ChatStreamSafety

  // ---------- summaries, field by field ----------

  function IndexOf(e: Event): Option<u32> { if e.Chunk? then e.delta.index else None }
  function IdOf(e: Event): Option<string> { if e.Chunk? then e.delta.id else None }
  function NameOf(e: Event): Option<string> { if e.Chunk? then e.delta.name else None }
  function KindOf(e: Event): Option<string> { if e.Chunk? then e.delta.kind else None }
  function FragmentOf(e: Event): Option<string> { if e.Chunk? then e.delta.fragment else None }
  function ReasonOf(e: Event): Option<string> { if e.Chunk? then e.reason else Some(e.why) }

  /** All argument fragments in order. */
  function Joined(h: seq<Event>): string {
    if h == [] then "" else Joined(h[..|h| - 1]) + FragmentOf(h[|h| - 1]).GetOr("")
  }

  function Capped(s: string): string {
    s[..Min(|s|, MAX_ARGUMENT_CHARS)]
  }

  /** The j-th event brings a fragment that does not fit, or one that finds the buffer full. */
  predicate OverflowsAt(h: seq<Event>, j: nat)
    requires j < |h|
  {
    && FragmentOf(h[j]).Some?
    && (|Joined(h[..j])| >= MAX_ARGUMENT_CHARS || |Joined(h[..j + 1])| > MAX_ARGUMENT_CHARS)
  }

  predicate Overflows(h: seq<Event>) {
    exists j :: 0 <= j < |h| && OverflowsAt(h, j)
  }

  predicate IsChunk(e: Event) { e.Chunk? }

  function ChunkCount(h: seq<Event>): nat {
    |Filter(h, IsChunk)|
  }

  predicate AnyAfterDone(h: seq<Event>) {
    exists j :: 0 <= j < |h| && h[j].Chunk? && h[j].afterDone
  }

  /** The draft that a sequence of events amounts to. */
  function Summary(h: seq<Event>): Draft
    requires h != [] && h[0].Chunk?
  {
    Draft(h[0].delta.choice,
          FirstSome(h, IndexOf),
          FirstSome(h, IdOf),
          FirstSome(h, NameOf),
          FirstSome(h, KindOf),
          Capped(Joined(h)),
          Overflows(h),
          Min(ChunkCount(h), U32_MAX),
          FirstSome(h, ReasonOf),
          AnyAfterDone(h))
  }

  lemma OverflowsSnoc(h: seq<Event>, e: Event)
    ensures Joined(h + [e]) == Joined(h) + FragmentOf(e).GetOr("")
    ensures Overflows(h + [e]) <==>
      || Overflows(h)
      || (FragmentOf(e).Some? && (|Joined(h)| >= MAX_ARGUMENT_CHARS || |Joined(h + [e])| > MAX_ARGUMENT_CHARS))
  {
    var g := h + [e];
    assert g[..|h|] == h && g[..|h| + 1] == g;
    assert OverflowsAt(g, |h|) <==>
      FragmentOf(e).Some? && (|Joined(h)| >= MAX_ARGUMENT_CHARS || |Joined(g)| > MAX_ARGUMENT_CHARS);
    forall j | 0 <= j < |h| ensures OverflowsAt(g, j) <==> OverflowsAt(h, j) {
      assert g[..j] == h[..j] && g[..j + 1] == h[..j + 1];
    }
  }

  lemma CountSnoc(h: seq<Event>, e: Event)
    ensures ChunkCount(h + [e]) == ChunkCount(h) + if e.Chunk? then 1 else 0
    ensures AnyAfterDone(h + [e]) <==> AnyAfterDone(h) || (e.Chunk? && e.afterDone)
  {
    var g := h + [e];
    FilterSnoc(h, e, IsChunk);
    assert forall j :: 0 <= j < |h| ==> g[j] == h[j];
    if e.Chunk? && e.afterDone {
      assert g[|h|].afterDone;
    }
  }

  lemma SummarySnoc(h: seq<Event>, e: Event)
    requires h != [] && h[0].Chunk?
    ensures var x, y := Summary(h), Summary(h + [e]);
            && y.choice == x.choice
            && y.index == OrElse(x.index, IndexOf(e))
            && y.id == OrElse(x.id, IdOf(e))
            && y.name == OrElse(x.name, NameOf(e))
            && y.kind == OrElse(x.kind, KindOf(e))
            && y.finish == OrElse(x.finish, ReasonOf(e))
  {
    FirstSomeSnoc(h, e, IndexOf);
    FirstSomeSnoc(h, e, IdOf);
    FirstSomeSnoc(h, e, NameOf);
    FirstSomeSnoc(h, e, KindOf);
    FirstSomeSnoc(h, e, ReasonOf);
  }

  /** Appending with a cap is capping the concatenation. */
  lemma AppendMatches(x: Draft, h: seq<Event>, e: Event)
    requires x.arguments == Capped(Joined(h)) && x.truncated == Overflows(h)
    requires FragmentOf(e).Some?
    ensures var y := Append(x, FragmentOf(e).value);
            y.arguments == Capped(Joined(h + [e])) && y.truncated == Overflows(h + [e])
  {
    OverflowsSnoc(h, e);
  }

  lemma AbsorbMatches(x: Draft, h: seq<Event>, e: Event)
    requires h != [] && h[0].Chunk? && x == Summary(h)
    requires e.Chunk?
    ensures Absorb(x, e.delta, e.reason, e.afterDone) == Summary(h + [e])
  {
    SummarySnoc(h, e);
    CountSnoc(h, e);
    OverflowsSnoc(h, e);
    if FragmentOf(e).Some? {
      AppendMatches(x, h, e);
    }
  }

  lemma FreshMatches(e: Event)
    requires e.Chunk?
    ensures Absorb(Fresh(e.delta), e.delta, e.reason, e.afterDone) == Summary([e])
  {
    assert [] + [e] == [e];
    FirstSomeSnoc([], e, IndexOf);
    FirstSomeSnoc([], e, IdOf);
    FirstSomeSnoc([], e, NameOf);
    FirstSomeSnoc([], e, KindOf);
    FirstSomeSnoc([], e, ReasonOf);
    CountSnoc([], e);
    OverflowsSnoc([], e);
    if FragmentOf(e).Some? {
      AppendMatches(Fresh(e.delta), [], e);
    }
  }

  lemma FinishMatches(x: Draft, h: seq<Event>, e: Event)
    requires h != [] && h[0].Chunk? && x == Summary(h)
    requires e.Finish?
    ensures x.(finish := OrElse(x.finish, Some(e.why))) == Summary(h + [e])
  {
    SummarySnoc(h, e);
    CountSnoc(h, e);
    OverflowsSnoc(h, e);
  }

  // ---------- histories ----------

  /** Which events reach draft k: its deltas, and the finish reasons of its choice. */
  function Reaching(k: nat): (Table, Event) -> bool {
    (t: Table, e: Event) =>
      match e
      case Finish(choice, _) => k < |t.drafts| && t.drafts[k].choice == choice
      case Chunk(d, _, _) => Route(t, d) == Some(k)
  }

  /** The events of the stream that reached draft k. */
  function Hist(es: seq<Event>, k: nat): seq<Event> {
    Trail(Apply, EMPTY, es, Reaching(k))
  }

  ghost predicate SummarizedIn(drafts: seq<Draft>, k: nat, h: seq<Event>) {
    if k < |drafts| then h != [] && h[0].Chunk? && drafts[k] == Summary(h) else h == []
  }

  ghost predicate Summarized(t: Table, k: nat, h: seq<Event>) {
    SummarizedIn(t.drafts, k, h)
  }

  lemma SummarizedFinish(t: Table, e: Event, k: nat, h: seq<Event>)
    requires e.Finish? && Summarized(t, k, h)
    ensures Summarized(Apply(t, e), k, h + if Reaching(k)(t, e) then [e] else [])
  {
    assert h + [] == h;
    if k < |t.drafts| {
      FinishMatches(t.drafts[k], h, e);
    }
  }

  function Handed(drafts: seq<Draft>, e: Event, i: nat): seq<Draft>
    requires e.Chunk? && i <= |drafts|
  {
    var open := if i == |drafts| then drafts + [Fresh(e.delta)] else drafts;
    open[i := Absorb(open[i], e.delta, e.reason, e.afterDone)]
  }

  /** A delta that draft i receives changes the summary of draft i alone. */
  lemma SummarizedHanded(drafts: seq<Draft>, e: Event, i: nat, k: nat, h: seq<Event>)
    requires e.Chunk? && i <= |drafts| && SummarizedIn(drafts, k, h)
    ensures SummarizedIn(Handed(drafts, e, i), k, if k == i then h + [e] else h)
  {
    if k == i && i < |drafts| {
      AbsorbMatches(drafts[k], h, e);
    } else if k == i {
      assert h + [e] == [e];
      FreshMatches(e);
    }
  }

  lemma SummarizedStep(t: Table, e: Event, k: nat, h: seq<Event>)
    requires Inv(t) && Summarized(t, k, h)
    ensures Summarized(Apply(t, e), k, h + if Reaching(k)(t, e) then [e] else [])
  {
    assert h + [] == h;
    if e.Finish? {
      SummarizedFinish(t, e, k, h);
    } else if Route(t, e.delta).Some? {
      RouteBounded(t, e.delta);
      SummarizedHanded(t.drafts, e, Route(t, e.delta).value, k, h);
    }
  }

  /** For every stream, each draft is the summary of exactly the events that reached it. */
  lemma DraftsSummarizeHistories(es: seq<Event>, k: nat)
    ensures Summarized(Run(es), k, Hist(es, k))
  {
    var rel: (Table, seq<Event>) -> bool := (t: Table, h: seq<Event>) => Inv(t) && Summarized(t, k, h);
    assert Inv(EMPTY);
    assert Summarized(EMPTY, k, []);
    assert rel(EMPTY, []);
    forall t, e, h {:trigger Apply(t, e), rel(t, h)} | rel(t, h)
      ensures rel(Apply(t, e), h + if Reaching(k)(t, e) then [e] else [])
    {
      InvStep(t, e);
      SummarizedStep(t, e, k, h);
    }
    TrailKeeps(Apply, EMPTY, es, Reaching(k), rel);
  }

  /** An unset truncation flag means nothing was lost; a set one means the buffer is full. */
  lemma TruncationFlag(es: seq<Event>, k: nat)
    requires k < |Run(es).drafts|
    ensures var x, all := Run(es).drafts[k], Joined(Hist(es, k));
            && x.arguments == Capped(all)
            && (x.arguments == all <==> |all| <= 16384)
            && (!x.truncated ==> x.arguments == all)
            && (x.truncated ==> |x.arguments| == 16384)
  {
    DraftsSummarizeHistories(es, k);
    OverflowMeansFull(Hist(es, k));
  }

  /** The j-th event brings a fragment when the ones before fill the buffer to the last character. */
  predicate FragmentAfterFull(h: seq<Event>, j: nat)
    requires j < |h|
  {
    FragmentOf(h[j]).Some? && |Joined(h[..j])| == MAX_ARGUMENT_CHARS
  }

  /**
   The flag is set although nothing was lost, exactly when all fragments together fill the
   buffer and yet another one, then empty, came after it was full.
   */
  lemma TruncatedWithoutLoss(es: seq<Event>, k: nat)
    requires k < |Run(es).drafts|
    ensures var x, h := Run(es).drafts[k], Hist(es, k);
            x.truncated && x.arguments == Joined(h) <==>
            && |Joined(h)| == MAX_ARGUMENT_CHARS
            && exists j :: 0 <= j < |h| && FragmentAfterFull(h, j)
  {
    var h := Hist(es, k);
    DraftsSummarizeHistories(es, k);
    TruncationFlag(es, k);
    forall j | 0 <= j < |h| && |Joined(h)| == MAX_ARGUMENT_CHARS
      ensures OverflowsAt(h, j) <==> FragmentAfterFull(h, j)
    {
      JoinedGrows(h, j);
      JoinedGrows(h, j + 1);
    }
  }

  lemma FirstIndexedDelta(d: Delta)
    requires d.index.Some? && d.id.None? && d.fragment.Some? && |d.fragment.value| == MAX_ARGUMENT_CHARS
    ensures var t := Apply(EMPTY, Chunk(d, None, false));
            && |t.drafts| == 1 && t.drafts[0].arguments == d.fragment.value
            && Points(t, Indexed(d.choice, d.index.value), 0)
  {
    assert Keys(d) == [Indexed(d.choice, d.index.value)];
    LookupHit(EMPTY.indexes, Keys(d));
    FallbackScansMiss(EMPTY, d);
    assert Route(EMPTY, d) == Some(0);
    DeliverEffect(EMPTY, d, None, false, 0);
    assert KeyOf(Indexed(d.choice, d.index.value), d);
  }

  lemma EmptyFragmentOnFull(t: Table, d: Delta)
    requires |t.drafts| == 1 && |t.drafts[0].arguments| == MAX_ARGUMENT_CHARS
    requires d.index.Some? && d.id.None? && d.fragment == Some("") && Points(t, Indexed(d.choice, d.index.value), 0)
    ensures var r := Apply(t, Chunk(d, None, false));
            |r.drafts| == 1 && r.drafts[0].truncated && r.drafts[0].arguments == t.drafts[0].arguments
  {
    assert Keys(d) == [Indexed(d.choice, d.index.value)];
    assert Route(t, d) == Some(0);
  }

  /** One such stream: a delta that fills the buffer, then an empty fragment of the same call. */
  lemma EmptyFragmentSetsFlag(full: string)
    requires |full| == MAX_ARGUMENT_CHARS
    ensures var d := Delta(0, Some(0), None, None, None, Some(full));
            var drafts := Run([Chunk(d, None, false), Chunk(d.(fragment := Some("")), None, false)]).drafts;
            |drafts| == 1 && drafts[0].truncated && drafts[0].arguments == full
  {
    var d := Delta(0, Some(0), None, None, None, Some(full));
    var a, b := Chunk(d, None, false), Chunk(d.(fragment := Some("")), None, false);
    RunSnoc([], a);
    RunSnoc([a], b);
    assert [] + [a] == [a] && [a] + [b] == [a, b];
    FirstIndexedDelta(d);
    EmptyFragmentOnFull(Run([a]), b.delta);
  }

  lemma OverflowMeansFull(h: seq<Event>)
    ensures if Overflows(h) then |Capped(Joined(h))| == MAX_ARGUMENT_CHARS else Capped(Joined(h)) == Joined(h)
  {
    if Overflows(h) {
      var j :| 0 <= j < |h| && OverflowsAt(h, j);
      JoinedGrows(h, j);
      JoinedGrows(h, j + 1);
    } else if |Joined(h)| > MAX_ARGUMENT_CHARS {
      LongMeansOverflow(h);
    }
  }

  lemma {:induction false} JoinedGrows(h: seq<Event>, j: nat)
    requires j <= |h|
    ensures |Joined(h[..j])| <= |Joined(h)|
  {
    if j == |h| {
      assert h[..j] == h;
    } else {
      JoinedGrows(h[..|h| - 1], j);
      assert h[..|h| - 1][..j] == h[..j];
    }
  }

  lemma {:induction false} LongMeansOverflow(h: seq<Event>)
    requires |Joined(h)| > MAX_ARGUMENT_CHARS
    ensures Overflows(h)
  {
    var n := |h| - 1;
    var g, e := h[..n], h[n];
    assert h == g + [e];
    OverflowsSnoc(g, e);
    if |Joined(g)| > MAX_ARGUMENT_CHARS {
      LongMeansOverflow(g);
    }
  }

  // ---------- conservation ----------

  predicate IsKeyed(e: Event) {
    e.Chunk? && Keys(e.delta) != []
  }

  /** The deltas that carry an index or an id. */
  function Keyed(): (Table, Event) -> bool {
    (t: Table, e: Event) => IsKeyed(e)
  }

  /** Keyed deltas that come when all 16 drafts exist and none of them is found for it. */
  function Dropped(): (Table, Event) -> bool {
    (t: Table, e: Event) => IsKeyed(e) && Find(t, e.delta).None? && |t.drafts| >= MAX_DRAFTS
  }

  function RoutedTo(k: nat): (Table, Event) -> bool {
    (t: Table, e: Event) => e.Chunk? && Route(t, e.delta) == Some(k)
  }

  function RoutedBelow(n: nat): (Table, Event) -> bool {
    (t: Table, e: Event) => e.Chunk? && Route(t, e.delta).Some? && Route(t, e.delta).value < n
  }

  /** Chunks that reached the first n drafts, all told. */
  function ReachedCount(es: seq<Event>, n: nat): nat {
    if n == 0 then 0 else ReachedCount(es, n - 1) + ChunkCount(Hist(es, n - 1))
  }

  lemma ChunksOfHistory(es: seq<Event>, k: nat)
    ensures Filter(Hist(es, k), IsChunk) == Trail(Apply, EMPTY, es, RoutedTo(k))
  {
    FilterTrail(Apply, EMPTY, es, Reaching(k), IsChunk, RoutedTo(k));
  }

  lemma {:induction false} ReachedIsRouted(es: seq<Event>, n: nat)
    ensures ReachedCount(es, n) == RoutedCount(es, n)
  {
    if n == 0 {
      TrailNone(Apply, EMPTY, es, RoutedBelow(0));
    } else {
      ReachedIsRouted(es, n - 1);
      RoutedBelowNext(es, n - 1);
    }
  }

  function RoutedCount(es: seq<Event>, n: nat): nat {
    |Trail(Apply, EMPTY, es, RoutedBelow(n))|
  }

  lemma RoutedBelowNext(es: seq<Event>, n: nat)
    ensures RoutedCount(es, n + 1) == RoutedCount(es, n) + ChunkCount(Hist(es, n))
  {
    ChunksOfHistory(es, n);
    TrailSplit(Apply, EMPTY, es, RoutedBelow(n), RoutedTo(n), RoutedBelow(n + 1));
  }

  /**
   The chunks that reached the drafts are the keyed deltas of the stream minus the dropped
   ones: no delta is counted in two drafts and none disappears silently.
   */
  lemma DeltasConserved(es: seq<Event>)
    ensures ReachedCount(es, MAX_DRAFTS)
         == |Trail(Apply, EMPTY, es, Keyed())| - |Trail(Apply, EMPTY, es, Dropped())|
  {
    ReachedIsRouted(es, MAX_DRAFTS);
    var kept: (Table, Event) -> bool := (t: Table, e: Event) => Keyed()(t, e) && !Dropped()(t, e);
    TrailSplit(Apply, EMPTY, es, kept, Dropped(), Keyed());
    var inv: Table -> bool := (t: Table) => Inv(t);
    forall t, e | inv(t) ensures inv(Apply(t, e)) {
      InvStep(t, e);
    }
    forall t, e | inv(t) ensures kept(t, e) == RoutedBelow(MAX_DRAFTS)(t, e) {
      if e.Chunk? && Route(t, e.delta).Some? {
        RouteFits(t, e.delta);
      }
    }
    TrailAgree(Apply, EMPTY, es, inv, kept, RoutedBelow(MAX_DRAFTS));
  }

  function ChunkTotal(drafts: seq<Draft>): nat {
    if drafts == [] then 0 else ChunkTotal(drafts[..|drafts| - 1]) + drafts[|drafts| - 1].chunks
  }

  /** No draft received more chunks than its counter can hold. */
  ghost predicate CountersSuffice(es: seq<Event>) {
    forall k :: 0 <= k < MAX_DRAFTS ==> ChunkCount(Hist(es, k)) <= U32_MAX
  }

  /**
   The counters of the drafts add up to the same number, short only of what a saturated
   counter did not count.
   */
  lemma ChunkCountersAddUp(es: seq<Event>)
    ensures var kept := |Trail(Apply, EMPTY, es, Keyed())| - |Trail(Apply, EMPTY, es, Dropped())|;
            ChunkTotal(Run(es).drafts) <= kept && (ChunkTotal(Run(es).drafts) == kept <==> CountersSuffice(es))
    ensures |es| <= U32_MAX ==> CountersSuffice(es)
  {
    DeltasConserved(es);
    RunInv(es);
    var drafts := Run(es).drafts;
    forall k: nat ensures CountsAs(drafts, k, ChunkCount(Hist(es, k))) && ChunkCount(Hist(es, k)) <= |es| {
      DraftsSummarizeHistories(es, k);
      HistoryShorter(es, k);
    }
    CountersMatch(es, drafts, MAX_DRAFTS);
    assert drafts[..Min(MAX_DRAFTS, |drafts|)] == drafts;
  }

  predicate CountsAs(drafts: seq<Draft>, k: nat, count: nat) {
    Min(count, U32_MAX) == if k < |drafts| then drafts[k].chunks else 0
  }

  lemma {:induction false} CountersMatch(es: seq<Event>, drafts: seq<Draft>, n: nat)
    requires forall k: nat :: CountsAs(drafts, k, ChunkCount(Hist(es, k)))
    ensures var total := ChunkTotal(drafts[..Min(n, |drafts|)]);
            && total <= ReachedCount(es, n)
            && (total == ReachedCount(es, n) <==> forall k :: 0 <= k < n ==> ChunkCount(Hist(es, k)) <= U32_MAX)
  {
    if n > 0 {
      CountersMatch(es, drafts, n - 1);
      assert CountsAs(drafts, n - 1, ChunkCount(Hist(es, n - 1)));
      if n <= |drafts| {
        assert drafts[..n][..n - 1] == drafts[..n - 1];
      }
    }
  }

  lemma HistoryShorter(es: seq<Event>, k: nat)
    ensures ChunkCount(Hist(es, k)) <= |es|
  {
    ChunksOfHistory(es, k);
    TrailShorter(es, RoutedTo(k));
  }

  lemma {:induction false} TrailShorter(es: seq<Event>, p: (Table, Event) -> bool)
    ensures |Trail(Apply, EMPTY, es, p)| <= |es|
  {
    if es != [] {
      TrailShorter(es[..|es| - 1], p);
    }
  }
}
