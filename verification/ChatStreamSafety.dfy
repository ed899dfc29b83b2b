/**
 What every stream of deltas keeps true of the draft table: the hash index is complete, and
 the drafts have pairwise different idempotency keys.
 */
module ChatStreamSafety {
  import opened Wrappers
  import opened Text
  import opened Runs
  import opened ChatStream

  // ---------- the invariant ----------

  ghost predicate SameChoice(t: Table) {
    forall k :: k in t.indexes ==> t.drafts[t.indexes[k]].choice == k.choice
  }

  ghost predicate Points(t: Table, k: Key, i: nat) {
    k in t.indexes && t.indexes[k] == i
  }

  /** The index that a draft shows is its own in the hash index. */
  ghost predicate OwnsIndex(t: Table) {
    forall i :: 0 <= i < |t.drafts| && t.drafts[i].index.Some? ==>
      Points(t, Indexed(t.drafts[i].choice, t.drafts[i].index.value), i)
  }

  /** The id that a draft shows is registered, though possibly for another draft. */
  ghost predicate KnowsId(t: Table) {
    forall i :: 0 <= i < |t.drafts| && t.drafts[i].id.Some? ==>
      ProviderId(t.drafts[i].choice, t.drafts[i].id.value) in t.indexes
  }

  ghost predicate Anchored(t: Table) {
    forall i :: 0 <= i < |t.drafts| && t.drafts[i].index.None? ==> t.drafts[i].id.Some?
  }

  ghost predicate IdOnlyDistinct(t: Table) {
    forall i, j :: 0 <= i < j < |t.drafts| && SameIdOnlyGroup(t.drafts[i], t.drafts[j]) ==>
      t.drafts[i].id != t.drafts[j].id
  }

  predicate SameIdOnlyGroup(x: Draft, y: Draft) {
    x.index.None? && y.index.None? && x.choice == y.choice
  }

  ghost predicate Inv(t: Table) {
    && |t.drafts| <= MAX_DRAFTS
    && SameChoice(t)
    && OwnsIndex(t)
    && KnowsId(t)
    && Anchored(t)
    && IdOnlyDistinct(t)
  }

  lemma KeysOf(d: Delta)
    ensures forall k :: k in Keys(d) <==>
      || (d.index.Some? && k == Indexed(d.choice, d.index.value))
      || (d.id.Some? && k == ProviderId(d.choice, d.id.value))
  {
  }

  // ---------- index completeness ----------

  /**
   When the hash index misses, the scans over the drafts miss too, except the search for the
   one draft of the same name that has an id but no index.
   */
  lemma FallbackScansMiss(t: Table, d: Delta)
    requires Inv(t)
    requires Lookup(t.indexes, Keys(d)).None?
    ensures Find(t, d) == if d.index.Some? && d.id.None?
                          then UniqueWhere(t.drafts, SameNameAlias(d.choice, d.name))
                          else None
  {
    LookupHit(t.indexes, Keys(d));
    KeysOf(d);
    if d.index.Some? {
      forall i | 0 <= i < |t.drafts| ensures !(t.drafts[i].choice == d.choice && t.drafts[i].index == d.index) {
        assert t.drafts[i].index.Some? ==> Points(t, Indexed(t.drafts[i].choice, t.drafts[i].index.value), i);
      }
    }
    if d.id.Some? {
      forall i | 0 <= i < |t.drafts| ensures !(t.drafts[i].choice == d.choice && t.drafts[i].id == d.id) {
        assert t.drafts[i].id.Some? ==> ProviderId(t.drafts[i].choice, t.drafts[i].id.value) in t.indexes;
      }
    }
  }

  /** Where a delta may go: never across choices, and to the owner of its index if there is one. */
  ghost predicate FitsRoute(t: Table, d: Delta, i: nat) {
    && i <= |t.drafts|
    && i < MAX_DRAFTS
    && (d.index.Some? || d.id.Some?)
    && (i < |t.drafts| ==> t.drafts[i].choice == d.choice)
    && (i == |t.drafts| && d.index.Some? ==> Indexed(d.choice, d.index.value) !in t.indexes)
    && (i == |t.drafts| && d.id.Some? ==> ProviderId(d.choice, d.id.value) !in t.indexes)
    && (d.index.Some? && Indexed(d.choice, d.index.value) in t.indexes ==>
          i == t.indexes[Indexed(d.choice, d.index.value)])
  }

  lemma RouteFits(t: Table, d: Delta)
    requires Inv(t)
    requires Route(t, d).Some?
    ensures FitsRoute(t, d, Route(t, d).value)
  {
    LookupHit(t.indexes, Keys(d));
    KeysOf(d);
    if Lookup(t.indexes, Keys(d)).None? {
      FallbackScansMiss(t, d);
    }
  }

  /** A draft that an index-only delta may join although it has no index yet: it has an id and the same name. */
  ghost predicate IsAlias(t: Table, d: Delta, k: nat) {
    && d.index.Some? && d.id.None? && d.name.Some?
    && k < |t.drafts| && t.drafts[k].choice == d.choice
    && t.drafts[k].index.None? && t.drafts[k].id.Some? && t.drafts[k].name == d.name
  }

  ghost predicate IsOnlyAlias(t: Table, d: Delta, k: nat) {
    IsAlias(t, d, k) && forall j: nat :: IsAlias(t, d, j) ==> j == k
  }

  /**
   Where a delta goes: to the draft its index is known for, or else its id, or else to the only
   alias, or else to a new draft if there is room; a delta without index and id goes nowhere.
   */
  lemma RouteExactly(t: Table, d: Delta)
    requires Inv(t)
    ensures var byIndex := d.index.Some? && Indexed(d.choice, d.index.value) in t.indexes;
            var byId := d.id.Some? && ProviderId(d.choice, d.id.value) in t.indexes;
            && (d.index.None? && d.id.None? ==> Route(t, d) == None)
            && (byIndex ==> Route(t, d) == Some(t.indexes[Indexed(d.choice, d.index.value)]))
            && (!byIndex && byId ==> Route(t, d) == Some(t.indexes[ProviderId(d.choice, d.id.value)]))
            && (!byIndex && !byId ==> forall k: nat :: IsOnlyAlias(t, d, k) ==> Route(t, d) == Some(k))
            && (!byIndex && !byId && (d.index.Some? || d.id.Some?) && (forall k: nat :: !IsOnlyAlias(t, d, k)) ==>
                  Route(t, d) == if |t.drafts| < 16 then Some(|t.drafts|) else None)
  {
    LookupHit(t.indexes, Keys(d));
    KeysOf(d);
    if Lookup(t.indexes, Keys(d)).None? {
      FallbackScansMiss(t, d);
      var p := SameNameAlias(d.choice, d.name);
      assert d.index.Some? && d.id.None? ==> forall k: nat :: IsAlias(t, d, k) <==> k < |t.drafts| && p(t.drafts[k]);
      var r := UniqueWhere(t.drafts, p);
      if d.index.Some? && d.id.None? && r.Some? {
        assert IsOnlyAlias(t, d, r.value);
      }
    }
  }

  // ---------- preservation ----------

  /** How delivering a delta changes the index and the identity of the drafts. */
  ghost predicate Delivered(t: Table, r: Table, d: Delta, i: nat)
    requires i <= |t.drafts|
  {
    && |r.drafts| == (if i == |t.drafts| then i + 1 else |t.drafts|)
    && (forall j :: 0 <= j < |t.drafts| && j != i ==> r.drafts[j] == t.drafts[j])
    && r.drafts[i].choice == (if i == |t.drafts| then d.choice else t.drafts[i].choice)
    && r.drafts[i].index == (if i == |t.drafts| then d.index else OrElse(t.drafts[i].index, d.index))
    && r.drafts[i].id == (if i == |t.drafts| then d.id else OrElse(t.drafts[i].id, d.id))
    && (forall k :: k in t.indexes ==> k in r.indexes)
    && (forall k :: k in r.indexes && !KeyOf(k, d) ==> k in t.indexes && r.indexes[k] == t.indexes[k])
    && (forall k :: KeyOf(k, d) ==> Points(r, k, i))
  }

  predicate KeyOf(k: Key, d: Delta) {
    k.choice == d.choice && if k.Indexed? then d.index == Some(k.index) else d.id == Some(k.id)
  }

  lemma DeliverEffect(t: Table, d: Delta, reason: Option<string>, afterDone: bool, i: nat)
    requires i <= |t.drafts|
    ensures Delivered(t, Deliver(t, d, reason, afterDone, i), d, i)
  {
    KeysOf(d);
    RegisterKeys(t.indexes, Keys(d), i);
  }

  lemma DeliveryKeepsChoices(t: Table, r: Table, d: Delta, i: nat)
    requires SameChoice(t) && FitsRoute(t, d, i) && Delivered(t, r, d, i)
    ensures SameChoice(r)
  {
    forall k | k in r.indexes ensures r.drafts[r.indexes[k]].choice == k.choice {
      assert KeyOf(k, d) ==> Points(r, k, i);
    }
  }

  lemma DeliveryKeepsOwners(t: Table, r: Table, d: Delta, i: nat)
    requires OwnsIndex(t) && FitsRoute(t, d, i) && Delivered(t, r, d, i)
    ensures OwnsIndex(r)
  {
    forall j | 0 <= j < |r.drafts| && r.drafts[j].index.Some?
      ensures Points(r, Indexed(r.drafts[j].choice, r.drafts[j].index.value), j)
    {
      var k := Indexed(r.drafts[j].choice, r.drafts[j].index.value);
      assert j < |t.drafts| && t.drafts[j].index.Some? ==> Points(t, k, j);
      assert KeyOf(k, d) || k in t.indexes;
    }
  }

  lemma DeliveryKeepsIds(t: Table, r: Table, d: Delta, i: nat)
    requires Inv(t) && FitsRoute(t, d, i) && Delivered(t, r, d, i)
    ensures KnowsId(r) && Anchored(r) && IdOnlyDistinct(r)
  {
    forall j | 0 <= j < |r.drafts| && r.drafts[j].id.Some?
      ensures ProviderId(r.drafts[j].choice, r.drafts[j].id.value) in r.indexes
    {
      var k := ProviderId(r.drafts[j].choice, r.drafts[j].id.value);
      assert KeyOf(k, d) || k in t.indexes;
    }
    forall j, k | 0 <= j < k < |r.drafts| && SameIdOnlyGroup(r.drafts[j], r.drafts[k])
      ensures r.drafts[j].id != r.drafts[k].id
    {
      if k < |t.drafts| {
        assert SameIdOnlyGroup(t.drafts[j], t.drafts[k]);
      } else {
        assert ProviderId(t.drafts[j].choice, t.drafts[j].id.value) in t.indexes;
      }
    }
  }

  lemma InvFinish(t: Table, choice: u32, why: string)
    requires Inv(t)
    ensures Inv(Table(t.indexes, MarkFinished(t.drafts, choice, why)))
  {
    var r: Table := Table(t.indexes, MarkFinished(t.drafts, choice, why));
    assert forall i :: 0 <= i < |t.drafts| ==>
      r.drafts[i].choice == t.drafts[i].choice && r.drafts[i].index == t.drafts[i].index
        && r.drafts[i].id == t.drafts[i].id;
    forall i | 0 <= i < |r.drafts| && r.drafts[i].index.Some?
      ensures Points(r, Indexed(r.drafts[i].choice, r.drafts[i].index.value), i)
    {
      assert Points(t, Indexed(t.drafts[i].choice, t.drafts[i].index.value), i);
    }
    forall i, j | 0 <= i < j < |r.drafts| && SameIdOnlyGroup(r.drafts[i], r.drafts[j])
      ensures r.drafts[i].id != r.drafts[j].id
    {
      assert SameIdOnlyGroup(t.drafts[i], t.drafts[j]);
    }
  }

  lemma InvStep(t: Table, e: Event)
    requires Inv(t)
    ensures Inv(Apply(t, e))
  {
    if e.Finish? {
      InvFinish(t, e.choice, e.why);
    } else if Route(t, e.delta).Some? {
      var i := Route(t, e.delta).value;
      RouteFits(t, e.delta);
      var r := Deliver(t, e.delta, e.reason, e.afterDone, i);
      DeliverEffect(t, e.delta, e.reason, e.afterDone, i);
      DeliveryKeepsChoices(t, r, e.delta, i);
      DeliveryKeepsOwners(t, r, e.delta, i);
      DeliveryKeepsIds(t, r, e.delta, i);
    }
  }

  /** The invariant holds after every stream. */
  lemma RunInv(es: seq<Event>)
    ensures Inv(Run(es))
  {
    var keeps: Table -> bool := (t: Table) => Inv(t);
    forall t, e | keeps(t) ensures keeps(Apply(t, e)) {
      InvStep(t, e);
    }
    FoldKeeps(Apply, EMPTY, es, keeps);
  }

  // ---------- stability ----------

  lemma StableStep(t: Table, e: Event, k: Key, i: nat)
    requires Inv(t)
    requires k.Indexed? && Points(t, k, i)
    ensures Points(Apply(t, e), k, i)
  {
    if e.Chunk? && Route(t, e.delta).Some? {
      RouteFits(t, e.delta);
      DeliverEffect(t, e.delta, e.reason, e.afterDone, Route(t, e.delta).value);
      assert !KeyOf(k, e.delta) || i == Route(t, e.delta).value;
    }
  }

  /** Once an index is assigned to a draft, no continuation of the stream moves it. */
  lemma IndexedNeverRemapped(es: seq<Event>, more: seq<Event>, k: Key)
    requires k.Indexed? && k in Run(es).indexes
    ensures Points(Run(es + more), k, Run(es).indexes[k])
  {
    var i := Run(es).indexes[k];
    var keeps: Table -> bool := (t: Table) => Inv(t) && Points(t, k, i);
    forall t, e | keeps(t) ensures keeps(Apply(t, e)) {
      InvStep(t, e);
      StableStep(t, e, k, i);
    }
    RunInv(es);
    FoldKeeps(Apply, Run(es), more, keeps);
    FoldAppend(Apply, EMPTY, es, more);
  }

  /**
   An id, by contrast, moves away from its draft exactly when a delta carries it together
   with an index that another draft owns.
   */
  lemma ProviderIdRemappedExactly(t: Table, e: Event, k: Key)
    requires Inv(t)
    requires k.ProviderId? && k in t.indexes
    ensures k in Apply(t, e).indexes
    ensures Apply(t, e).indexes[k] != t.indexes[k] <==>
      && e.Chunk? && KeyOf(k, e.delta) && e.delta.index.Some?
      && Indexed(k.choice, e.delta.index.value) in t.indexes
      && t.indexes[Indexed(k.choice, e.delta.index.value)] != t.indexes[k]
  {
    if e.Chunk? && Route(t, e.delta).Some? {
      var d, i := e.delta, Route(t, e.delta).value;
      RouteFits(t, d);
      DeliverEffect(t, d, e.reason, e.afterDone, i);
      KeysOf(d);
      if KeyOf(k, d) && !(d.index.Some? && Indexed(k.choice, d.index.value) in t.indexes) {
        assert Keys(d)[|Keys(d)| - 1] == k;
        assert Lookup(t.indexes, Keys(d)) == Some(t.indexes[k]);
      }
    } else if e.Chunk? && KeyOf(k, e.delta) {
      KeysOf(e.delta);
      LookupHit(t.indexes, Keys(e.delta));
    }
  }

  function IdDelta(index: u32, id: string): Event {
    Chunk(Delta(0, Some(index), Some(id), None, None, None), None, false)
  }

  /** A delta with index and id, neither of them known, opens the next draft. */
  lemma RouteMiss(t: Table, d: Delta)
    requires Inv(t) && |t.drafts| < MAX_DRAFTS && d.index.Some? && d.id.Some?
    requires Indexed(d.choice, d.index.value) !in t.indexes && ProviderId(d.choice, d.id.value) !in t.indexes
    ensures Route(t, d) == Some(|t.drafts|)
  {
    KeysOf(d);
    LookupHit(t.indexes, Keys(d));
    FallbackScansMiss(t, d);
  }

  lemma FirstDelta(id: string)
    ensures var t := Apply(EMPTY, IdDelta(0, id));
            |t.drafts| == 1 && t.indexes == map[Indexed(0, 0) := 0, ProviderId(0, id) := 0]
  {
    var d := IdDelta(0, id).delta;
    KeysOf(d);
    RegisterKeys(EMPTY.indexes, Keys(d), 0);
    LookupHit(EMPTY.indexes, Keys(d));
  }

  lemma SecondDelta(t: Table, a: string, b: string)
    requires Inv(t) && |t.drafts| == 1 && t.indexes == map[Indexed(0, 0) := 0, ProviderId(0, a) := 0] && a != b
    ensures var r := Apply(t, IdDelta(1, b));
            Points(r, ProviderId(0, a), 0) && Points(r, Indexed(0, 1), 1)
  {
    var d := IdDelta(1, b).delta;
    RouteMiss(t, d);
    DeliverEffect(t, d, None, false, 1);
    assert KeyOf(Indexed(0, 1), d) && !KeyOf(ProviderId(0, a), d);
  }

  lemma ThirdDelta(t: Table, a: string)
    requires Inv(t) && Points(t, ProviderId(0, a), 0) && Points(t, Indexed(0, 1), 1)
    ensures Points(Apply(t, IdDelta(1, a)), ProviderId(0, a), 1)
  {
    var d := IdDelta(1, a).delta;
    assert Keys(d)[0] == Indexed(0, 1);
    assert Route(t, d) == Some(1);
    DeliverEffect(t, d, None, false, 1);
    assert KeyOf(ProviderId(0, a), d);
  }

  /** A stream in which an id does move: index 0 with id a, index 1 with id b, index 1 with id a. */
  lemma ProviderIdMoves(a: string, b: string)
    requires a != b
    ensures Points(Run([IdDelta(0, a), IdDelta(1, b)]), ProviderId(0, a), 0)
    ensures Points(Run([IdDelta(0, a), IdDelta(1, b), IdDelta(1, a)]), ProviderId(0, a), 1)
  {
    var x, y, z := IdDelta(0, a), IdDelta(1, b), IdDelta(1, a);
    RunSnoc([], x);
    RunSnoc([x], y);
    RunSnoc([x, y], z);
    assert [] + [x] == [x] && [x] + [y] == [x, y] && [x, y] + [z] == [x, y, z];
    RunInv([x]);
    RunInv([x, y]);
    FirstDelta(a);
    SecondDelta(Run([x]), a, b);
    ThirdDelta(Run([x, y]), a);
  }

  // ---------- idempotency keys ----------

  function KeyPart(x: Draft): string {
    if x.index.Some? then "index:" + Decimal(x.index.value)
    else if x.id.Some? then "id:" + x.id.value
    else "unknown"
  }

  function IdempotencyKey(request: string, x: Draft): string {
    request + ":chat_completions:" + Decimal(x.choice) + ":" + KeyPart(x)
  }

  lemma KeyPartInjective(x: Draft, y: Draft)
    requires x.index.Some? || x.id.Some?
    requires y.index.Some? || y.id.Some?
    requires KeyPart(x) == KeyPart(y)
    ensures x.index == y.index && (x.index.None? ==> x.id == y.id)
  {
    assert KeyPart(x)[1] == if x.index.Some? then 'n' else 'd';
    assert KeyPart(y)[1] == if y.index.Some? then 'n' else 'd';
    if x.index.Some? {
      SamePrefixSameRest("index:", Decimal(x.index.value), Decimal(y.index.value));
      DecimalInjective(x.index.value, y.index.value);
    } else {
      SamePrefixSameRest("id:", x.id.value, y.id.value);
    }
  }

  lemma IdempotencyKeyInjective(request: string, x: Draft, y: Draft)
    requires IdempotencyKey(request, x) == IdempotencyKey(request, y)
    ensures x.choice == y.choice && KeyPart(x) == KeyPart(y)
  {
    var prefix := request + ":chat_completions:";
    var a, b := Decimal(x.choice), Decimal(y.choice);
    assert IdempotencyKey(request, x) == prefix + (a + ":" + KeyPart(x));
    assert IdempotencyKey(request, y) == prefix + (b + ":" + KeyPart(y));
    SamePrefixSameRest(prefix, a + ":" + KeyPart(x), b + ":" + KeyPart(y));
    assert a + ":" + KeyPart(x) == a + [':'] + KeyPart(x);
    assert b + ":" + KeyPart(y) == b + [':'] + KeyPart(y);
    SplitAtDelimiter(':', a, KeyPart(x), b, KeyPart(y));
    DecimalInjective(x.choice, y.choice);
  }

  /**
   For every stream, the drafts have pairwise different idempotency keys, and none of them
   falls back to the part "unknown".
   */
  lemma IdempotencyKeysDistinct(request: string, es: seq<Event>)
    ensures var drafts := Run(es).drafts;
            && |drafts| <= MAX_DRAFTS
            && (forall i :: 0 <= i < |drafts| ==> drafts[i].index.Some? || drafts[i].id.Some?)
            && (forall i, j :: 0 <= i < j < |drafts| ==>
                  IdempotencyKey(request, drafts[i]) != IdempotencyKey(request, drafts[j]))
  {
    RunInv(es);
    var t := Run(es);
    forall i, j | 0 <= i < j < |t.drafts|
      ensures IdempotencyKey(request, t.drafts[i]) != IdempotencyKey(request, t.drafts[j])
    {
      var x, y := t.drafts[i], t.drafts[j];
      assert x.index.Some? ==> Points(t, Indexed(x.choice, x.index.value), i);
      if IdempotencyKey(request, x) == IdempotencyKey(request, y) {
        IdempotencyKeyInjective(request, x, y);
        KeyPartInjective(x, y);
        assert false;
      }
    }
  }
}
