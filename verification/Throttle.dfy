/** The login rate limiter (app/login_throttle.py) and the route that drives it
    (`login` in app/auth.py). Times are ticks of one monotonic clock. */
module Throttle {
  import opened Outcomes

  /** `ip_key` and `account_key`; their prefixes keep the two kinds apart. */
  datatype Key = Ip(address: string) | Account(email: string)

  datatype Entry = Entry(failures: int, firstAt: int, lockedUntil: Option<int>)

  datatype Config = Config(window: int, limit: int, lockout: int, maxTracked: nat)

  type Table = map<Key, Entry>

  // ------------------------------------------------- what each operation does

  predicate LockedAt(e: Entry, now: int) { e.lockedUntil.Some? && e.lockedUntil.value > now }

  predicate Locked(s: Table, k: Key, now: int) { k in s && LockedAt(s[k], now) }

  /** Neither locked nor inside its window: what `_prune` drops. */
  predicate Dead(e: Entry, window: int, now: int) {
    !LockedAt(e, now) && now - e.firstAt >= window
  }

  function Pruned(s: Table, window: int, now: int): Table {
    map k | k in s && !Dead(s[k], window, now) :: s[k]
  }

  function Larger(a: int, b: int): int { if a >= b then a else b }

  /** Ticks until every one of `keys` is unlocked; 0 when none is locked. */
  function RetryAfter(s: Table, keys: seq<Key>, now: int): (wait: nat)
    ensures wait > 0 ==> exists k :: k in keys && Locked(s, k, now) && s[k].lockedUntil.value == now + wait
    ensures forall k :: k in keys && Locked(s, k, now) ==> s[k].lockedUntil.value <= now + wait
  {
    if keys == [] then 0
    else
      var k, rest := keys[0], RetryAfter(s, keys[1..], now);
      assert keys == [k] + keys[1..];
      if Locked(s, k, now) && s[k].lockedUntil.value - now > rest then s[k].lockedUntil.value - now else rest
  }

  /** The entry a failure counts against: a fresh one when there is none, when the
      window aged out, or when the lock ran out. */
  function Current(s: Table, k: Key, window: int, now: int): Entry {
    if k !in s || (s[k].lockedUntil.None? && now - s[k].firstAt >= window) then Entry(0, now, None)
    else if s[k].lockedUntil.Some? && s[k].lockedUntil.value <= now then Entry(0, now, None)
    else s[k]
  }

  function Bumped(e: Entry, cfg: Config, now: int): Entry {
    var counted := e.(failures := e.failures + 1);
    if counted.failures >= cfg.limit then counted.(lockedUntil := Some(now + cfg.lockout)) else counted
  }

  function BumpAll(s: Table, keys: seq<Key>, cfg: Config, now: int): Table
    decreases keys
  {
    if keys == [] then s
    else
      var k := keys[0];
      BumpAll(s[k := Bumped(Current(s, k, cfg.window, now), cfg, now)], keys[1..], cfg, now)
  }

  predicate AnyTripped(s: Table, keys: seq<Key>, cfg: Config, now: int)
    decreases keys
  {
    if keys == [] then false
    else
      var k := keys[0];
      var e := Bumped(Current(s, k, cfg.window, now), cfg, now);
      e.failures >= cfg.limit || AnyTripped(s[k := e], keys[1..], cfg, now)
  }

  function Trimmed(s: Table, cfg: Config, now: int): Table {
    if |s| >= cfg.maxTracked then Pruned(s, cfg.window, now) else s
  }

  function Failed(s: Table, keys: seq<Key>, cfg: Config, now: int): Table {
    BumpAll(Trimmed(s, cfg, now), keys, cfg, now)
  }

  function Cleared(s: Table, keys: seq<Key>): Table { map k | k in s && k !in keys :: s[k] }

  /** One attempt on the login route: who, when the lock is checked, when a failure
      is counted, and whether the credentials are right. */
  datatype Attempt = Attempt(address: string, email: string, checkAt: int, countAt: int, ok: bool)

  datatype Answer = Blocked | LoggedIn | Refused(nowLocked: bool)

  function Keys(a: Attempt): (keys: seq<Key>)
    ensures |keys| == 2 && keys[0] != keys[1]
  {
    [Ip(a.address), Account(a.email)]
  }

  function After(s: Table, a: Attempt, cfg: Config): Table {
    if RetryAfter(s, Keys(a), a.checkAt) > 0 then s
    else if a.ok then Cleared(s, [Account(a.email)])
    else Failed(s, Keys(a), cfg, a.countAt)
  }

  function Reply(s: Table, a: Attempt, cfg: Config): Answer {
    if RetryAfter(s, Keys(a), a.checkAt) > 0 then Blocked
    else if a.ok then LoggedIn
    else Refused(AnyTripped(Trimmed(s, cfg, a.countAt), Keys(a), cfg, a.countAt))
  }

  // ------------------------------------------------- what an attempt comes to

  /** The attempt's address or account has a lock that outlasts the check. */
  predicate Barred(s: Table, a: Attempt) {
    || (Ip(a.address) in s && s[Ip(a.address)].lockedUntil.Some? && s[Ip(a.address)].lockedUntil.value > a.checkAt)
    || (Account(a.email) in s && s[Account(a.email)].lockedUntil.Some?
        && s[Account(a.email)].lockedUntil.value > a.checkAt)
  }

  /** The entry is still of use: locked, or inside its window. */
  predicate Lasting(e: Entry, window: int, now: int) {
    (e.lockedUntil.Some? && e.lockedUntil.value > now) || now - e.firstAt < window
  }

  /** No failures are held against k: none were counted, they are a window old, or the
      lock they led to ran out. */
  predicate Forgiven(s: Table, k: Key, window: int, now: int) {
    k in s ==> if s[k].lockedUntil.Some? then s[k].lockedUntil.value <= now else now - s[k].firstAt >= window
  }

  /** From s to t one failure was added to k's count, and at the limit locked it. */
  predicate CountedOnce(s: Table, t: Table, k: Key, cfg: Config, now: int) {
    var afresh := Forgiven(s, k, cfg.window, now);
    && k in t
    && t[k].failures == (if afresh then 1 else s[k].failures + 1)
    && t[k].firstAt == (if afresh then now else s[k].firstAt)
    && (t[k].failures >= cfg.limit ==> t[k].lockedUntil == Some(now + cfg.lockout))
    && (t[k].failures < cfg.limit ==> t[k].lockedUntil == (if afresh then None else s[k].lockedUntil))
  }

  /** Other keys keep their entries; only in a full table do those of no more use go. */
  ghost predicate OthersKept(s: Table, t: Table, keys: seq<Key>, cfg: Config, now: int) {
    forall k :: k !in keys ==>
      && (k in t <==> k in s && (|s| < cfg.maxTracked || Lasting(s[k], cfg.window, now)))
      && (k in t ==> t[k] == s[k])
  }

  /** Bumping a list of distinct keys bumps each of them once. */
  lemma {:induction false} BumpAllAt(s: Table, keys: seq<Key>, cfg: Config, now: int, k: Key)
    requires forall i, j :: 0 <= i < j < |keys| ==> keys[i] != keys[j]
    ensures var t := BumpAll(s, keys, cfg, now);
            && (k in keys ==> k in t && t[k] == Bumped(Current(s, k, cfg.window, now), cfg, now))
            && (k !in keys ==> (k in t <==> k in s) && (k in s ==> t[k] == s[k]))
    decreases keys
  {
    if keys != [] {
      var s' := s[keys[0] := Bumped(Current(s, keys[0], cfg.window, now), cfg, now)];
      assert keys == [keys[0]] + keys[1..];
      BumpAllAt(s', keys[1..], cfg, now, k);
    }
  }

  /** Dropping dead entries changes no count: a dead entry would be replaced anyway. */
  lemma CurrentIgnoresPruning(s: Table, k: Key, window: int, now: int)
    ensures Current(Pruned(s, window, now), k, window, now) == Current(s, k, window, now)
  {
  }

  /** A failure on distinct keys counts once on each, and touches no other. */
  lemma FailureCountsOnce(s: Table, keys: seq<Key>, cfg: Config, now: int)
    requires forall i, j :: 0 <= i < j < |keys| ==> keys[i] != keys[j]
    ensures forall k :: k in keys ==> CountedOnce(s, Failed(s, keys, cfg, now), k, cfg, now)
    ensures OthersKept(s, Failed(s, keys, cfg, now), keys, cfg, now)
  {
    hide BumpAll;
    forall k
      ensures k in keys ==> CountedOnce(s, Failed(s, keys, cfg, now), k, cfg, now)
      ensures k !in keys ==>
        && (k in Failed(s, keys, cfg, now) <==> k in s && (|s| < cfg.maxTracked || Lasting(s[k], cfg.window, now)))
        && (k in Failed(s, keys, cfg, now) ==> Failed(s, keys, cfg, now)[k] == s[k])
    {
      BumpAllAt(Trimmed(s, cfg, now), keys, cfg, now, k);
      CurrentIgnoresPruning(s, k, cfg.window, now);
    }
  }

  /** A locked address or account is turned away; otherwise the password decides. */
  lemma AnswerMeans(s: Table, a: Attempt, cfg: Config)
    ensures Reply(s, a, cfg).Blocked? <==> Barred(s, a)
    ensures Reply(s, a, cfg).LoggedIn? <==> !Barred(s, a) && a.ok
  {
    var ip, account := Keys(a)[0], Keys(a)[1];
    assert ip in Keys(a) && account in Keys(a);
    assert forall k :: k in Keys(a) <==> k == ip || k == account;
  }

  /** What each answer leaves behind: nothing changed, the account forgotten and nothing
      else, or one failure more on the address and the account. */
  lemma AttemptMeans(s: Table, a: Attempt, cfg: Config)
    ensures var t := After(s, a, cfg);
      match Reply(s, a, cfg)
      case Blocked => t == s
      case LoggedIn => t == s - {Account(a.email)}
      case Refused(_) =>
        && CountedOnce(s, t, Ip(a.address), cfg, a.countAt) && CountedOnce(s, t, Account(a.email), cfg, a.countAt)
        && OthersKept(s, t, [Ip(a.address), Account(a.email)], cfg, a.countAt)
  {
    hide RetryAfter, Failed, CountedOnce, OthersKept;
    FailureCountsOnce(s, Keys(a), cfg, a.countAt);
    assert Keys(a)[0] in Keys(a) && Keys(a)[1] in Keys(a);
  }

  /** The process-wide limiter. */
  class Limiter {
    var state: Table
    const cfg: Config

    constructor (cfg: Config)
      ensures state == map[] && this.cfg == cfg
    {
      this.cfg := cfg;
      state := map[];
    }

    /** `retry_after`: reads only. */
    method Check(keys: seq<Key>, now: int) returns (longest: int)
      ensures longest == RetryAfter(state, keys, now)
    {
      longest := 0;
      for i := 0 to |keys|
        invariant longest >= 0
        invariant RetryAfter(state, keys, now) == Larger(longest, RetryAfter(state, keys[i..], now))
      {
        var key := keys[i];
        assert keys[i..][0] == key && keys[i..][1..] == keys[i + 1..];
        if key in state {
          var until := state[key].lockedUntil;
          if until.Some? && until.value > now {
            longest := Larger(longest, until.value - now);
          }
        }
      }
    }

    /** `_prune`: collect the dead keys, then drop them. */
    method Prune(now: int)
      modifies this
      ensures state == Pruned(old(state), cfg.window, now)
      ensures forall k :: k in state <==> k in old(state) && Lasting(old(state)[k], cfg.window, now)
      ensures forall k :: k in state ==> state[k] == old(state)[k]
    {
      var todo, expired: set<Key> := state.Keys, {};
      while todo != {}
        invariant todo <= state.Keys && state == old(state)
        invariant expired == set k | k in state && k !in todo && Dead(state[k], cfg.window, now)
        decreases todo
      {
        var key :| key in todo;
        todo := todo - {key};
        if Dead(state[key], cfg.window, now) {
          expired := expired + {key};
        }
      }
      state := state - expired;
    }

    /** `register_failure` */
    method RegisterFailure(keys: seq<Key>, now: int) returns (locked: bool)
      modifies this
      ensures state == Failed(old(state), keys, cfg, now)
      ensures locked == AnyTripped(Trimmed(old(state), cfg, now), keys, cfg, now)
    {
      locked := false;
      if |state| >= cfg.maxTracked {
        Prune(now);
      }
      ghost var start := state;
      for i := 0 to |keys|
        invariant BumpAll(start, keys, cfg, now) == BumpAll(state, keys[i..], cfg, now)
        invariant AnyTripped(start, keys, cfg, now) == (locked || AnyTripped(state, keys[i..], cfg, now))
      {
        var key := keys[i];
        assert keys[i..][0] == key && keys[i..][1..] == keys[i + 1..];
        var entry := Entry(0, now, None);
        if key in state && !(state[key].lockedUntil.None? && now - state[key].firstAt >= cfg.window) {
          entry := state[key];
        }
        if entry.lockedUntil.Some? && entry.lockedUntil.value <= now {
          entry := Entry(0, now, None);
        }
        entry := entry.(failures := entry.failures + 1);
        if entry.failures >= cfg.limit {
          entry := entry.(lockedUntil := Some(now + cfg.lockout));
          locked := true;
        }
        state := state[key := entry];
      }
      assert keys[0..] == keys;
    }

    /** `clear` */
    method Clear(keys: seq<Key>)
      modifies this
      ensures state == Cleared(old(state), keys)
    {
      for i := 0 to |keys|
        invariant state == Cleared(old(state), keys[..i])
      {
        state := state - {keys[i]};
        assert keys[..i + 1] == keys[..i] + [keys[i]];
      }
      assert keys[..|keys|] == keys;
    }

    /** The POST half of `login`: check both keys, verify, then clear or count. */
    method Login(a: Attempt) returns (answer: Answer)
      modifies this
      ensures state == After(old(state), a, cfg) && answer == Reply(old(state), a, cfg)
      ensures answer.Blocked? <==> Barred(old(state), a)
      ensures answer.LoggedIn? <==> !Barred(old(state), a) && a.ok
      ensures answer.Blocked? ==> state == old(state)
      ensures answer.LoggedIn? ==> state == old(state) - {Account(a.email)}
      ensures answer.Refused? ==>
                && CountedOnce(old(state), state, Ip(a.address), cfg, a.countAt)
                && CountedOnce(old(state), state, Account(a.email), cfg, a.countAt)
                && OthersKept(old(state), state, [Ip(a.address), Account(a.email)], cfg, a.countAt)
    {
      hide RetryAfter, Failed, AnyTripped, Trimmed, Barred, CountedOnce, OthersKept;
      AnswerMeans(state, a, cfg);
      AttemptMeans(state, a, cfg);
      var lockedFor := Check(Keys(a), a.checkAt);
      if lockedFor > 0 {
        return Blocked;
      }
      if a.ok {
        Clear([Account(a.email)]);
        return LoggedIn;
      }
      var nowLocked := RegisterFailure(Keys(a), a.countAt);
      return Refused(nowLocked);
    }
  }
}
