/**
 The session lock: SET NX EX with a token of one's own to acquire, the token-checked delete to
 release (app_redis.rs, used by agent/tools/mcp_streamable_http/session.rs).
 */
module SessionLock {
  import opened Wrappers
  import opened Runs
  import opened RedisStore

  /**
   A token that was set: who knows that it acquired believes to hold the lock until the deadline.
   When the reply was lost, the token is in the store and nobody knows.
   */
  datatype Claim = Claim(token: string, deadline: nat, known: bool, released: bool)

  datatype State = State(store: Store, claims: seq<Claim>)

  datatype Action =
    | Pass(ms: nat)
    | Acquire(token: string, ttlSecs: nat, replyLost: bool)
    /** Release by whoever made that claim, however late. */
    | Free(claim: nat)

  function AcquireStep(s: State, key: string, token: string, ttlSecs: nat, replyLost: bool): State {
    if !ValidTtl(s.store.now, ttlSecs) || (exists i :: 0 <= i < |s.claims| && s.claims[i].token == token) then s
    else if Live(s.store, key) then s
    else State(SetNx(s.store, key, token, ttlSecs),
               s.claims + [Claim(token, s.store.now + ttlSecs * 1000, !replyLost, false)])
  }

  /** Tokens are fresh UUIDs: an Acquire with a used token is no step. */
  function StepOn(key: string): (State, Action) -> State {
    (s: State, a: Action) =>
      match a
      case Pass(ms) => s.(store := Tick(s.store, ms))
      case Acquire(token, ttlSecs, replyLost) => AcquireStep(s, key, token, ttlSecs, replyLost)
      case Free(c) =>
        if c >= |s.claims| || !s.claims[c].known then s
        else State(Release(s.store, key, s.claims[c].token), s.claims[c := s.claims[c].(released := true)])
  }

  /** The claim keeps others out. */
  predicate Occupies(s: State, i: nat) {
    i < |s.claims| && !s.claims[i].released && s.store.now <= s.claims[i].deadline
  }

  /** Its maker rightly believes to hold the lock. */
  predicate Holds(s: State, i: nat) {
    Occupies(s, i) && s.claims[i].known
  }

  ghost predicate Inv(s: State, key: string) {
    && (forall i, j :: 0 <= i < |s.claims| && 0 <= j < |s.claims| && s.claims[i].token == s.claims[j].token ==> i == j)
    && (forall i: nat :: Occupies(s, i) ==>
          key in s.store.entries && s.store.entries[key] == Entry(Text(s.claims[i].token), Some(s.claims[i].deadline)))
    && (Live(s.store, key) ==> exists i: nat :: Occupies(s, i))
  }

  lemma InvStep(s: State, key: string, a: Action)
    requires Inv(s, key)
    ensures Inv(StepOn(key)(s, a), key)
  {
    var t := StepOn(key)(s, a);
    match a
    case Pass(ms) =>
      assert forall i: nat :: Occupies(t, i) ==> Occupies(s, i);
      if Live(t.store, key) {
        var i: nat :| Occupies(s, i);
        assert Occupies(t, i);
      }
    case Acquire(token, ttlSecs, replyLost) =>
      if t != s {
        var n := |s.claims|;
        assert forall i :: 0 <= i < n ==> t.claims[i] == s.claims[i];
        assert forall i: nat :: Occupies(s, i) ==> Live(s.store, key);
        assert Occupies(t, n);
      }
    case Free(c) =>
      if t != s {
        InvFree(s, t, key, c);
      }
  }

  lemma InvFree(s: State, t: State, key: string, c: nat)
    requires Inv(s, key) && c < |s.claims|
    requires t == State(Release(s.store, key, s.claims[c].token), s.claims[c := s.claims[c].(released := true)])
    ensures Inv(t, key)
  {
    assert forall i: nat :: Occupies(t, i) ==> Occupies(s, i) && i != c;
    if Live(t.store, key) {
      assert t.store == s.store;
      var i: nat :| Occupies(s, i);
      assert i != c;
      assert Occupies(t, i);
    }
  }

  lemma RunInv(key: string, start: State, actions: seq<Action>)
    requires start.claims == [] && !Live(start.store, key)
    ensures Inv(Fold(StepOn(key), start, actions), key)
  {
    var keeps: State -> bool := (s: State) => Inv(s, key);
    forall s, a | keeps(s) ensures keeps(StepOn(key)(s, a)) {
      InvStep(s, key, a);
    }
    FoldKeeps(StepOn(key), start, actions, keeps);
  }

  /**
   In every run, lost replies included, at most one claim is both unexpired and unreleased, and
   the store then holds its token: a late release by an earlier holder never takes the lock away.
   So at most one session believes to hold the lock and has not outlived its time.
   */
  lemma MutualExclusion(key: string, start: State, actions: seq<Action>)
    requires start.claims == [] && !Live(start.store, key)
    ensures var s := Fold(StepOn(key), start, actions);
            && (forall i: nat :: Occupies(s, i) ==> Read(s.store, key) == Some(s.claims[i].token))
            && (forall i: nat, j: nat :: Occupies(s, i) && Occupies(s, j) ==> i == j)
            && (forall i: nat, j: nat :: Holds(s, i) && Holds(s, j) ==> i == j)
  {
    RunInv(key, start, actions);
  }
}
