/**
 * The token lock (pkg/base/redisx/redis.go:16-21, 63-90). Each SETNX and each run of the
 * unlock script is one atomic step of the server, on whose clock keys expire.
 */
module RedisLock {
  type Token = string

  /** A key's value and the instant it expires. */
  datatype Entry = Entry(token: Token, until: int)

  type Keyspace = map<string, Entry>

  const DEFAULT_TTL := 5_000_000_000

  predicate Live(store: Keyspace, key: string, now: int)
  {
    key in store && now < store[key].until
  }

  function SetNX(store: Keyspace, key: string, token: Token, ttl: int, now: int): Keyspace
  {
    if Live(store, key, now) then store else store[key := Entry(token, now + ttl)]
  }

  /** The compare-and-delete script. */
  function Unlock(store: Keyspace, key: string, token: Token, now: int): Keyspace
  {
    if Live(store, key, now) && store[key].token == token then store - {key} else store
  }

  function EffectiveTtl(ttl: int): (t: int)
    ensures t > 0
  {
    if ttl <= 0 then DEFAULT_TTL else ttl
  }

  datatype Outcome = NilClient | EmptyKey | ServerError | Busy | Locked

  class Redis {
    var now: int
    var store: Keyspace

    /**
     * `client` is whether the client is not nil, `served` whether SETNX reaches the server
     * and `answered` whether its reply comes back.
     */
    method TryLock(client: bool, key: string, ttl: int, token: Token, served: bool, answered: bool) returns (r: Outcome)
      modifies `store
      ensures store == if client && key != "" && served then SetNX(old(store), key, token, EffectiveTtl(ttl), now) else old(store)
      ensures client && key != "" && served && !(key in old(store) && now < old(store)[key].until) ==>
                && key in store && store[key] == Entry(token, now + (if ttl > 0 then ttl else 5_000_000_000))
                && store - {key} == old(store) - {key}
      ensures !client || key == "" || !served || (key in old(store) && now < old(store)[key].until) ==> store == old(store)
      ensures r.Locked? ==> key in store && store[key].token == token
      ensures r.NilClient? <==> !client
      ensures r.EmptyKey? <==> client && key == ""
      ensures r.ServerError? <==> client && key != "" && !(served && answered)
      ensures r.Busy? <==> client && key != "" && served && answered && Live(old(store), key, now)
    {
      if !client {
        return NilClient;
      }
      if key == "" {
        return EmptyKey;
      }
      var life := ttl;
      if life <= 0 {
        life := DEFAULT_TTL;
      }
      if !served {
        return ServerError;
      }
      var taken := key in store && now < store[key].until;
      if !taken {
        store := store[key := Entry(token, now + life)];
      }
      if !answered {
        return ServerError;
      }
      r := if taken then Busy else Locked;
    }

    /** The closure TryLock returns, when the script reaches the server. */
    method RunUnlock(key: string, token: Token)
      modifies `store
      ensures store == Unlock(old(store), key, token, now)
      ensures store == if key in old(store) && now < old(store)[key].until && old(store)[key].token == token
                       then old(store) - {key} else old(store)
    {
      if key in store && now < store[key].until && store[key].token == token {
        store := store - {key};
      }
    }
  }

  // ------------------------------------------------------------ any number of clients

  /** A SETNX that took effect; `told` is whether its client learned so. */
  datatype Grant = Grant(key: string, until: int, told: bool)

  datatype State = State(now: int, store: Keyspace, grants: map<Token, Grant>, released: set<Token>)

  datatype Action =
    | Advance(to: int)
    | Lock(token: Token, key: string, ttl: int, answered: bool)   // TryLock whose SETNX is served
    | Release(token: Token)                                       // an unlock whose script is served

  const INIT := State(0, map[], map[], {})

  predicate Enabled(s: State, a: Action)
  {
    match a
    case Advance(to) => s.now <= to
    case Lock(token, key, _, _) => token !in s.grants && key != ""
    case Release(token) => token in s.grants && s.grants[token].told
  }

  function Apply(s: State, a: Action): State
    requires Enabled(s, a)
  {
    match a
    case Advance(to) => s.(now := to)
    case Lock(token, key, ttl, answered) =>
      var after := s.(store := SetNX(s.store, key, token, EffectiveTtl(ttl), s.now));
      if Live(s.store, key, s.now) then after
      else after.(grants := s.grants[token := Grant(key, s.now + EffectiveTtl(ttl), answered)])
    case Release(token) =>
      s.(store := Unlock(s.store, s.grants[token].key, token, s.now), released := s.released + {token})
  }

  ghost predicate Execution(s: State, actions: seq<Action>, s': State)
    decreases |actions|
  {
    if actions == [] then s == s'
    else Enabled(s, actions[0]) && Execution(Apply(s, actions[0]), actions[1..], s')
  }

  /** The client has the lock: it was granted, has not expired and was not released. */
  predicate Holds(s: State, t: Token)
  {
    t in s.grants && t !in s.released && s.now < s.grants[t].until
  }

  /** Every holder's key carries its token, and every live key a holder's. */
  ghost predicate Inv(s: State)
  {
    && (forall t :: Holds(s, t) ==> s.grants[t].key in s.store && s.store[s.grants[t].key] == Entry(t, s.grants[t].until))
    && (forall key :: Live(s.store, key, s.now) ==> Holds(s, s.store[key].token) && s.grants[s.store[key].token].key == key)
    && s.released <= s.grants.Keys
  }

  lemma LockStep(s: State, token: Token, key: string, ttl: int, answered: bool)
    requires Inv(s) && Enabled(s, Lock(token, key, ttl, answered))
    ensures Inv(Apply(s, Lock(token, key, ttl, answered)))
  {
    var s' := Apply(s, Lock(token, key, ttl, answered));
    if !Live(s.store, key, s.now) {
      forall t | Holds(s', t) && t != token ensures s'.store[s'.grants[t].key] == Entry(t, s'.grants[t].until) {
        assert Holds(s, t) && Live(s.store, s.grants[t].key, s.now);
      }
      forall k | Live(s'.store, k, s'.now) && k != key ensures Holds(s', s'.store[k].token) {
        assert Live(s.store, k, s.now);
      }
    }
  }

  lemma ReleaseStep(s: State, token: Token)
    requires Inv(s) && Enabled(s, Release(token))
    ensures Inv(Apply(s, Release(token)))
  {
    var s' := Apply(s, Release(token));
    forall t | Holds(s', t)
      ensures s'.grants[t].key in s'.store && s'.store[s'.grants[t].key] == Entry(t, s'.grants[t].until)
    {
      assert Holds(s, t);
    }
    forall k | Live(s'.store, k, s'.now) ensures Holds(s', s'.store[k].token) && s'.grants[s'.store[k].token].key == k {
      assert Live(s.store, k, s.now);
    }
  }

  lemma AdvanceStep(s: State, to: int)
    requires Inv(s) && s.now <= to
    ensures Inv(s.(now := to))
  {
    var s' := s.(now := to);
    forall t | Holds(s', t) ensures s'.store[s'.grants[t].key] == Entry(t, s'.grants[t].until) {
      assert Holds(s, t);
    }
    forall k | Live(s'.store, k, s'.now) ensures Holds(s', s'.store[k].token) && s'.grants[s'.store[k].token].key == k {
      assert Live(s.store, k, s.now) && Holds(s, s.store[k].token);
    }
  }

  lemma {:induction false} InvExecution(s: State, actions: seq<Action>, s': State)
    requires Inv(s) && Execution(s, actions, s')
    ensures Inv(s')
    decreases |actions|
  {
    if actions != [] {
      match actions[0] {
        case Advance(to) => AdvanceStep(s, to);
        case Lock(token, key, ttl, answered) => LockStep(s, token, key, ttl, answered);
        case Release(token) => ReleaseStep(s, token);
      }
      InvExecution(Apply(s, actions[0]), actions[1..], s');
    }
  }

  /** In every run, at most one client has the lock on a key at any time. */
  lemma MutualExclusion(actions: seq<Action>, s: State, t: Token, u: Token)
    requires Execution(INIT, actions, s)
    requires Holds(s, t) && Holds(s, u) && s.grants[t].key == s.grants[u].key
    ensures t == u
  {
    InvExecution(INIT, actions, s);
  }

  /** An unlock takes the lock from nobody but its own caller, however late it comes. */
  lemma UnlockHurtsNobody(actions: seq<Action>, s: State, token: Token, u: Token)
    requires Execution(INIT, actions, s) && Enabled(s, Release(token)) && u != token
    ensures Holds(Apply(s, Release(token)), u) <==> Holds(s, u)
    ensures forall key :: Live(s.store, key, s.now) && s.store[key].token == u ==>
              Live(Apply(s, Release(token)).store, key, s.now) && Apply(s, Release(token)).store[key] == s.store[key]
    ensures !Holds(s, token) ==> Apply(s, Release(token)).store == s.store
  {
    InvExecution(INIT, actions, s);
  }

  /** TryLock succeeds exactly when no client holds the key, and then for the given time or 5 s. */
  lemma LockGranted(actions: seq<Action>, s: State, token: Token, key: string, ttl: int, answered: bool)
    requires Execution(INIT, actions, s) && Enabled(s, Lock(token, key, ttl, answered))
    ensures Holds(Apply(s, Lock(token, key, ttl, answered)), token)
            <==> forall t :: Holds(s, t) ==> s.grants[t].key != key
    ensures var s' := Apply(s, Lock(token, key, ttl, answered));
            Holds(s', token) ==>
              s'.grants[token] == Grant(key, s.now + (if ttl > 0 then ttl else 5_000_000_000), answered)
  {
    InvExecution(INIT, actions, s);
    if Live(s.store, key, s.now) { assert Holds(s, s.store[key].token); }
  }

  /** A client that knows of its lock can release it, and then the key is free for the next one. */
  lemma ReleaseFrees(actions: seq<Action>, s: State, token: Token, next: Token, ttl: int, answered: bool)
    requires Execution(INIT, actions, s) && Holds(s, token) && s.grants[token].told && next !in s.grants
    ensures Enabled(s, Release(token))
    ensures var s' := Apply(s, Release(token));
            && !Holds(s', token) && !Live(s'.store, s.grants[token].key, s'.now)
            && (s.grants[token].key != "" ==>
                  && Enabled(s', Lock(next, s.grants[token].key, ttl, answered))
                  && Holds(Apply(s', Lock(next, s.grants[token].key, ttl, answered)), next))
  {
    InvExecution(INIT, actions, s);
  }

  predicate Releases(actions: seq<Action>, t: Token)
  {
    exists i :: 0 <= i < |actions| && actions[i] == Release(t)
  }

  /** A lock is kept until its time is up, unless its own client releases it. */
  lemma {:induction false} LockIsKept(s: State, actions: seq<Action>, s': State, t: Token)
    requires Holds(s, t) && Execution(s, actions, s')
    ensures Holds(s', t) <==> !Releases(actions, t) && s'.now < s.grants[t].until
    decreases |actions|
  {
    if actions != [] {
      var mid := Apply(s, actions[0]);
      if Holds(mid, t) {
        LockIsKept(mid, actions[1..], s', t);
        assert actions == [actions[0]] + actions[1..];
        assert Releases(actions, t) <==> Releases(actions[1..], t);
      } else {
        Gone(mid, actions[1..], s', t);
      }
    }
  }

  lemma {:induction false} Gone(s: State, actions: seq<Action>, s': State, t: Token)
    requires t in s.grants && !Holds(s, t) && Execution(s, actions, s')
    ensures !Holds(s', t) && t in s'.grants && s'.grants[t] == s.grants[t]
    ensures s.now <= s'.now
    decreases |actions|
  {
    if actions != [] { Gone(Apply(s, actions[0]), actions[1..], s', t); }
  }

  /**
   * The time limit matters: a client that outlives its TTL still believes it has the lock
   * when the next one gets it.
   */
  lemma OverlapAfterExpiry() returns (s: State)
    ensures exists actions :: Execution(INIT, actions, s)
    ensures "a" in s.grants && s.grants["a"] == Grant("k", 10, true) && "a" !in s.released
    ensures Holds(s, "b") && s.grants["b"].key == "k" && s.grants["b"].told
  {
    var actions := [Lock("a", "k", 10, true), Advance(10), Lock("b", "k", 10, true)];
    var s1 := Apply(INIT, actions[0]);
    var s2 := Apply(s1, actions[1]);
    s := Apply(s2, actions[2]);
    assert actions[1..] == [actions[1], actions[2]] && actions[1..][1..] == [actions[2]];
    assert Execution(s, [], s);
    assert Execution(s2, [actions[2]], s);
    assert Execution(s1, [actions[1], actions[2]], s);
    assert Execution(INIT, actions, s);
  }
}
