/**
 Step-conflict detection between gateways that share one store (agent/step_state.rs and
 check_step_conflict in agent/service.rs).

 A check is a SET NX EX and, when the key was taken, a later GET. Between the two, other
 gateways run and time passes, so the protocol is a machine whose runs are all interleavings
 of these commands.
 */
module StepConflict {
  import opened Wrappers
  import opened Runs
  import opened StepState
  import opened RedisStore

  // ---------- one undisturbed check ----------

  datatype ConflictAction = Warn | Strict | Disabled

  datatype Decision = NoConflict | ConflictWarn | ConflictStrict | CheckDisabled

  /** One call with the store to itself: no verdict of conflict against its own fingerprint. */
  method DetectStepConflict(redis: AppRedis?, key: string, fingerprint: string, ttlSecs: nat, action: ConflictAction)
    returns (decision: Result<Decision>)
    modifies redis
    ensures action.Disabled? ==> decision == Ok(CheckDisabled)
    ensures !action.Disabled? && redis == null ==> decision == Ok(NoConflict)
    ensures redis != null && (action.Disabled? || decision.Refused?) ==> redis.Contents() == old(redis.Contents())
    ensures redis != null && !action.Disabled? ==>
      var before := old(redis.Contents());
      if !ValidTtl(before.now, ttlSecs) then decision.Refused?
      else && redis.Contents() == SetNx(before, key, fingerprint, ttlSecs)
           && Read(redis.Contents(), key).Some?
           && decision
             == Ok(if Read(redis.Contents(), key) == Some(fingerprint) then NoConflict
                   else if action == Strict then ConflictStrict else ConflictWarn)
  {
    if action.Disabled? {
      return Ok(CheckDisabled);
    }
    if redis == null {
      return Ok(NoConflict);
    }
    var inserted := redis.SetNxEx(key, fingerprint, ttlSecs);
    if inserted.Refused? {
      return Refused;
    }
    if inserted.value {
      return Ok(NoConflict);
    }
    var existing := redis.GetString(key);
    if existing == Some(fingerprint) {
      decision := Ok(NoConflict);
    } else if action.Strict? {
      decision := Ok(ConflictStrict);
    } else {
      decision := Ok(ConflictWarn);
    }
  }

  // ---------- the machine ----------

  datatype Request = Request(key: string, fingerprint: string)

  function RequestOf(step: StepRef, input: StepInput): Request {
    Request(StateKey(step), Fingerprint(input))
  }

  /** A successful SET begins a lifetime of its key. */
  datatype Birth = Birth(request: Request, deadline: nat)

  /** A gateway waits to GET after a SET that met the lifetime of that number. */
  datatype Client = Idle | MustGet(request: Request, met: nat)

  /** The lifetime a verdict was decided in; a conflict may meet no lifetime at all. */
  datatype Verdict = Verdict(request: Request, conflict: bool, life: Option<nat>, met: nat, time: nat)

  datatype State = State(
    store: Store,
    clients: map<nat, Client>,
    births: seq<Birth>,
    current: map<string, nat>,
    log: seq<Verdict>)

  datatype Action =
    | Pass(ms: nat)
    /** SET by an idle client; when the reply is lost, the client fails but the store has changed. */
    | Set(client: nat, request: Request, ttlSecs: nat, replyLost: bool)
    | GetBack(client: nat)
    /** The connection breaks before the GET. */
    | Abandon(client: nat)
    /** Any other use of the store, on keys that are not step keys. */
    | Foreign(key: string, entry: Option<Entry>)

  predicate IsStepKey(key: string) {
    "agent:step:" <= key
  }

  function ClientOf(s: State, c: nat): Client {
    if c in s.clients then s.clients[c] else Idle
  }

  function SetStep(s: State, c: nat, r: Request, ttlSecs: nat, replyLost: bool): State {
    var key := r.key;
    if !IsStepKey(key) || ClientOf(s, c) != Idle || !ValidTtl(s.store.now, ttlSecs) then s
    else if Live(s.store, key) then
      // a live step key always has a current lifetime, by the invariant below
      if replyLost || key !in s.current then s
      else s.(clients := s.clients[c := MustGet(r, s.current[key])])
    else
      var life := |s.births|;
      s.(store := SetNx(s.store, key, r.fingerprint, ttlSecs),
         births := s.births + [Birth(r, s.store.now + ttlSecs * 1000)],
         current := s.current[key := life],
         log := if replyLost then s.log else s.log + [Verdict(r, false, Some(life), life, s.store.now)])
  }

  function GetStep(s: State, c: nat): State {
    match ClientOf(s, c)
    case Idle => s
    case MustGet(r, met) =>
      var key := r.key;
      var seen := Read(s.store, key);
      var life := if seen.Some? && key in s.current then Some(s.current[key]) else None;
      s.(clients := s.clients[c := Idle],
         log := s.log + [Verdict(r, seen != Some(r.fingerprint), life, met, s.store.now)])
  }

  function Step(s: State, a: Action): State {
    match a
    case Pass(ms) => s.(store := Tick(s.store, ms))
    case Set(c, r, ttlSecs, replyLost) => SetStep(s, c, r, ttlSecs, replyLost)
    case GetBack(c) => GetStep(s, c)
    case Abandon(c) => s.(clients := s.clients[c := Idle])
    case Foreign(key, entry) =>
      if IsStepKey(key) then s
      else if entry.Some? then s.(store := Put(s.store, key, entry.value))
      else s.(store := s.store.(entries := s.store.entries - {key}))
  }

  /** No step key has been written yet; the rest of the store is arbitrary. */
  predicate Initial(s: State) {
    && (forall key :: key in s.store.entries ==> !IsStepKey(key))
    && s.clients == map[] && s.births == [] && s.current == map[] && s.log == []
  }

  function Run(start: State, actions: seq<Action>): State {
    Fold(Step, start, actions)
  }

  // ---------- what every step keeps ----------

  /** What a step key holds is what its latest lifetime began with. */
  ghost predicate StoreMatches(s: State) {
    && (forall key :: key in s.store.entries && IsStepKey(key) ==> key in s.current)
    && (forall key :: key in s.current ==>
          && IsStepKey(key)
          && s.current[key] < |s.births|
          && s.births[s.current[key]].request.key == key
          && key in s.store.entries
          && s.store.entries[key] == EntryOf(s.births[s.current[key]]))
  }

  function EntryOf(b: Birth): Entry {
    Entry(Text(b.request.fingerprint), Some(b.deadline))
  }

  ghost predicate ClientsMatch(s: State) {
    forall c :: c in s.clients && s.clients[c].MustGet? ==>
      s.clients[c].met < |s.births| && s.births[s.clients[c].met].request.key == s.clients[c].request.key
  }

  /** A lifetime that is not the latest of its key has expired. */
  ghost predicate OldLivesExpired(s: State) {
    forall i :: 0 <= i < |s.births| ==>
      var key := s.births[i].request.key;
      key in s.current && (s.current[key] != i ==> s.births[i].deadline < s.store.now)
  }

  /** What a verdict says, in terms of the lifetimes of the run. */
  ghost predicate VerdictExplained(births: seq<Birth>, v: Verdict) {
    if v.life.None? then
      && v.conflict
      && v.met < |births|
      && births[v.met].request.key == v.request.key
      && births[v.met].deadline < v.time
    else
      && v.life.value < |births|
      && births[v.life.value].request.key == v.request.key
      && (v.conflict <==> births[v.life.value].request.fingerprint != v.request.fingerprint)
  }

  ghost predicate LogExplained(s: State) {
    forall i :: 0 <= i < |s.log| ==> VerdictExplained(s.births, s.log[i])
  }

  ghost predicate Inv(s: State) {
    StoreMatches(s) && ClientsMatch(s) && OldLivesExpired(s) && LogExplained(s)
  }

  lemma LogKept(births: seq<Birth>, births': seq<Birth>, log: seq<Verdict>)
    requires births <= births'
    requires forall i :: 0 <= i < |log| ==> VerdictExplained(births, log[i])
    ensures forall i :: 0 <= i < |log| ==> VerdictExplained(births', log[i])
  {
    forall i | 0 <= i < |log| ensures VerdictExplained(births', log[i]) {
      assert VerdictExplained(births, log[i]);
    }
  }

  lemma InvBirth(s: State, c: nat, r: Request, ttlSecs: nat, replyLost: bool)
    requires Inv(s)
    requires IsStepKey(r.key) && ClientOf(s, c) == Idle && ValidTtl(s.store.now, ttlSecs) && !Live(s.store, r.key)
    ensures Inv(SetStep(s, c, r, ttlSecs, replyLost))
  {
    var t := SetStep(s, c, r, ttlSecs, replyLost);
    assert s.births <= t.births;
    LogKept(s.births, t.births, s.log);
    assert StoreMatches(t);
    assert ClientsMatch(t);
    assert OldLivesExpired(t);
  }

  lemma InvGet(s: State, c: nat)
    requires Inv(s)
    ensures Inv(GetStep(s, c))
  {
    var t := GetStep(s, c);
    if ClientOf(s, c).MustGet? {
      LogKept(s.births, t.births, s.log);
      assert VerdictExplained(t.births, t.log[|s.log|]);
    }
  }

  lemma InvForeign(s: State, entries: map<string, Entry>)
    requires Inv(s)
    requires forall key :: IsStepKey(key) ==>
      (key in entries <==> key in s.store.entries) && (key in entries ==> entries[key] == s.store.entries[key])
    ensures Inv(s.(store := s.store.(entries := entries)))
  {
  }

  lemma InvStep(s: State, a: Action)
    requires Inv(s)
    ensures Inv(Step(s, a))
  {
    match a
    case Set(c, r, ttlSecs, replyLost) =>
      if IsStepKey(r.key) && ClientOf(s, c) == Idle && ValidTtl(s.store.now, ttlSecs) && !Live(s.store, r.key) {
        InvBirth(s, c, r, ttlSecs, replyLost);
      }
    case GetBack(c) => InvGet(s, c);
    case Foreign(key, entry) =>
      if !IsStepKey(key) {
        InvForeign(s, Step(s, a).store.entries);
      }
    case _ =>
  }

  lemma RunInv(start: State, actions: seq<Action>)
    requires Initial(start)
    ensures Inv(Run(start, actions))
  {
    var keeps: State -> bool := (s: State) => Inv(s);
    forall s, a | keeps(s) ensures keeps(Step(s, a)) {
      InvStep(s, a);
    }
    FoldKeeps(Step, start, actions, keeps);
  }

  // ---------- lifetimes ----------

  lemma HistoryGrows(start: State, actions: seq<Action>, more: seq<Action>)
    ensures Run(start, actions).births <= Run(start, actions + more).births
    ensures Run(start, actions).log <= Run(start, actions + more).log
  {
    var s := Run(start, actions);
    var keeps: State -> bool := (t: State) => s.births <= t.births && s.log <= t.log;
    FoldAppend(Step, start, actions, more);
    FoldKeeps(Step, s, more, keeps);
  }

  /** Within one lifetime of a key, whatever the gateways do, its value and deadline stay. */
  lemma LifetimeValueFixed(start: State, actions: seq<Action>, more: seq<Action>, key: string)
    requires Initial(start)
    requires var s, t := Run(start, actions), Run(start, actions + more);
             key in s.current && key in t.current && s.current[key] == t.current[key]
    ensures var s, t := Run(start, actions), Run(start, actions + more);
            key in s.store.entries && key in t.store.entries && s.store.entries[key] == t.store.entries[key]
  {
    RunInv(start, actions);
    RunInv(start, actions + more);
    HistoryGrows(start, actions, more);
  }

  /** Requests are as distinct as the steps they stand for. */
  lemma RequestsIdentifySteps(step: StepRef, input: StepInput, step': StepRef, input': StepInput)
    ensures IsStepKey(RequestOf(step, input).key)
    ensures RequestOf(step, input).key == RequestOf(step', input').key <==> step == step'
    ensures RequestOf(step, input).fingerprint == RequestOf(step', input').fingerprint <==>
      Normalize(input) == Normalize(input')
  {
    StepKeyPrefix(step);
    if StateKey(step) == StateKey(step') {
      StateKeyInjective(step, step');
    }
    FingerprintIdentifiesStep(input, input');
  }

  lemma StepKeyPrefix(step: StepRef)
    ensures IsStepKey(StateKey(step))
  {
    var f := KeyFields(step);
    var rest := Text.JoinWith(':', f[2..]);
    assert f[1..][1..] == f[2..];
    assert Text.JoinWith(':', f[1..]) == "step" + [':'] + rest;
    assert StateKey(step) == "agent" + [':'] + ("step" + [':'] + rest);
    assert StateKey(step) == "agent:step:" + rest;
  }

  /** All verdicts of no conflict in one lifetime are for the same step of the same run. */
  lemma LifetimeAgreement(start: State, actions: seq<Action>, i: nat, j: nat,
                          step: StepRef, input: StepInput, step': StepRef, input': StepInput)
    requires Initial(start)
    requires var log := Run(start, actions).log;
             && i < |log| && j < |log|
             && !log[i].conflict && !log[j].conflict
             && log[i].life == log[j].life
             && log[i].request == RequestOf(step, input)
             && log[j].request == RequestOf(step', input')
    ensures step == step' && Normalize(input) == Normalize(input')
  {
    RunInv(start, actions);
    var s := Run(start, actions);
    assert VerdictExplained(s.births, s.log[i]) && VerdictExplained(s.births, s.log[j]);
    RequestsIdentifySteps(step, input, step', input');
  }

  /** An unexpired lifetime of the run that began with this very request. */
  ghost predicate Standing(s: State, r: Request, i: nat) {
    i < |s.births| && s.births[i].request == r && s.store.now <= s.births[i].deadline
  }

  /** What a GET reads is the fingerprint of the unexpired lifetime of its key, if there is one. */
  lemma ReadFindsLifetime(s: State, r: Request)
    requires Inv(s) && IsStepKey(r.key)
    ensures Read(s.store, r.key) == Some(r.fingerprint) <==> exists i: nat :: Standing(s, r, i)
  {
    if Read(s.store, r.key) == Some(r.fingerprint) {
      assert Standing(s, r, s.current[r.key]);
    }
    if i: nat :| Standing(s, r, i) {
      assert s.current[r.key] == i;
    }
  }

  /** The verdict that a waiting client gets now. */
  function VerdictOfGet(s: State, c: nat): bool
    requires ClientOf(s, c).MustGet?
  {
    GetStep(s, c).log[|s.log|].conflict
  }

  /**
   The GET of a waiting client, in every reachable state. While the lifetime that blocked its
   SET lasts, the verdict is a conflict if and only if that lifetime began with a different
   normalized input. Later it is one if and only if no unexpired lifetime began with its request.
   */
  lemma GetDecidesExactly(start: State, actions: seq<Action>, c: nat, step: StepRef, input: StepInput,
                          blocker: StepRef, blocking: StepInput)
    requires Initial(start)
    requires var s := Run(start, actions);
             && ClientOf(s, c).MustGet? && ClientOf(s, c).request == RequestOf(step, input)
             && ClientOf(s, c).met < |s.births|
             && s.births[ClientOf(s, c).met].request == RequestOf(blocker, blocking)
    ensures blocker == step
    ensures var s := Run(start, actions);
            VerdictOfGet(s, c) <==> !exists i: nat :: Standing(s, RequestOf(step, input), i)
    ensures var s := Run(start, actions);
            s.store.now <= s.births[ClientOf(s, c).met].deadline ==>
              (VerdictOfGet(s, c) <==> Normalize(blocking) != Normalize(input))
  {
    RunInv(start, actions);
    var s := Run(start, actions);
    var r, met := ClientOf(s, c).request, ClientOf(s, c).met;
    RequestsIdentifySteps(step, input, blocker, blocking);
    ReadFindsLifetime(s, r);
    assert s.births[met].request.key == r.key;
    if s.store.now <= s.births[met].deadline {
      assert s.current[r.key] == met;
    }
  }

  /**
   Every verdict of conflict has one of two reasons: the key held the fingerprint of a
   different step in the same place, or the lifetime that blocked the SET ran out before the GET.
   */
  lemma ConflictReasons(start: State, actions: seq<Action>, i: nat, step: StepRef, input: StepInput,
                        blocker: StepRef, blocking: StepInput)
    requires Initial(start)
    requires var s := Run(start, actions);
             && i < |s.log| && s.log[i].conflict
             && s.log[i].request == RequestOf(step, input)
             && Explaining(s, s.log[i]).request == RequestOf(blocker, blocking)
    ensures blocker == step
    ensures var s := Run(start, actions);
            if s.log[i].life.Some? then Normalize(blocking) != Normalize(input)
            else Explaining(s, s.log[i]).deadline < s.log[i].time
  {
    RunInv(start, actions);
    var s := Run(start, actions);
    assert VerdictExplained(s.births, s.log[i]);
    RequestsIdentifySteps(step, input, blocker, blocking);
  }

  /** The lifetime that a verdict was decided in, or else the one that its SET had met. */
  function Explaining(s: State, v: Verdict): Birth {
    var i := if v.life.Some? then v.life.value else v.met;
    if i < |s.births| then s.births[i] else Birth(v.request, 0)
  }

  /** The second reason is real: two gateways report the same step, and the later one conflicts. */
  lemma ExpiryGivesFalseConflict(start: State, r: Request, ttlSecs: nat)
    requires Initial(start) && IsStepKey(r.key) && ValidTtl(start.store.now, ttlSecs)
    ensures var actions := [Set(0, r, ttlSecs, false), Set(1, r, ttlSecs, false), Pass(ttlSecs * 1000 + 1), GetBack(1)];
            var log := Run(start, actions).log;
            |log| == 2 && log[0].request == r && !log[0].conflict && log[1].request == r && log[1].conflict
  {
    var a0, a1 := Set(0, r, ttlSecs, false), Set(1, r, ttlSecs, false);
    var a2, a3 := Pass(ttlSecs * 1000 + 1), GetBack(1);
    var s1 := Step(start, a0);
    assert s1.store.entries[r.key] == Entry(Text(r.fingerprint), Some(start.store.now + ttlSecs * 1000));
    var s2 := Step(s1, a1);
    assert s2.store == s1.store && ClientOf(s2, 1) == MustGet(r, 0);
    var s3 := Step(s2, a2);
    assert Read(s3.store, r.key) == None;
    FoldFour(Step, start, a0, a1, a2, a3);
  }

  lemma FoldFour<S, E>(step: (S, E) -> S, start: S, a: E, b: E, c: E, d: E)
    ensures Fold(step, start, [a, b, c, d]) == step(step(step(step(start, a), b), c), d)
  {
    FoldSnoc(step, start, [], a);
    FoldSnoc(step, start, [a], b);
    FoldSnoc(step, start, [a, b], c);
    FoldSnoc(step, start, [a, b, c], d);
    assert [] + [a] == [a] && [a] + [b] == [a, b] && [a, b] + [c] == [a, b, c] && [a, b, c] + [d] == [a, b, c, d];
  }
}
