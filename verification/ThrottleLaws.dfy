/** What the login limiter guarantees over whole runs of the route. */
module ThrottleLaws {
  import opened Outcomes
  import opened Throttle

  // ------------------------------------------------------------- runs of the route

  /** Attempts one after the other on a clock that never goes back. */
  ghost predicate Timed(atts: seq<Attempt>, start: int) {
    atts == [] ||
    (start <= atts[0].checkAt <= atts[0].countAt && Timed(atts[1..], atts[0].countAt))
  }

  function Run(s: Table, atts: seq<Attempt>, cfg: Config): Table
    decreases atts
  {
    if atts == [] then s else Run(After(s, atts[0], cfg), atts[1..], cfg)
  }

  /** The attempt adds a failure to k's count. */
  predicate CountsOn(s: Table, a: Attempt, k: Key) {
    RetryAfter(s, Keys(a), a.checkAt) == 0 && !a.ok && k in Keys(a)
  }

  /** The attempt is a successful login that forgets k. */
  predicate Clears(s: Table, a: Attempt, k: Key) {
    RetryAfter(s, Keys(a), a.checkAt) == 0 && a.ok && k == Account(a.email)
  }

  ghost predicate NeverCleared(s: Table, atts: seq<Attempt>, k: Key, cfg: Config)
    decreases atts
  {
    atts == [] || (!Clears(s, atts[0], k) && NeverCleared(After(s, atts[0], cfg), atts[1..], k, cfg))
  }

  /** Failures the run counts against k. */
  function Counted(s: Table, atts: seq<Attempt>, k: Key, cfg: Config): nat
    decreases atts
  {
    if atts == [] then 0
    else (if CountsOn(s, atts[0], k) then 1 else 0) + Counted(After(s, atts[0], cfg), atts[1..], k, cfg)
  }

  // ------------------------------------------------------------ one key, one step

  /** The effect of one attempt on one key. */
  lemma StepAt(s: Table, a: Attempt, cfg: Config, k: Key)
    ensures CountsOn(s, a, k) ==>
              k in After(s, a, cfg)
              && After(s, a, cfg)[k] == Bumped(Current(s, k, cfg.window, a.countAt), cfg, a.countAt)
    ensures !CountsOn(s, a, k) && !Clears(s, a, k) ==>
              && (k in After(s, a, cfg) ==> k in s && After(s, a, cfg)[k] == s[k])
              && (k in s && k !in After(s, a, cfg) ==> Dead(s[k], cfg.window, a.countAt))
    ensures Clears(s, a, k) ==> k !in After(s, a, cfg)
  {
    if RetryAfter(s, Keys(a), a.checkAt) == 0 && !a.ok {
      BumpAllAt(Trimmed(s, cfg, a.countAt), Keys(a), cfg, a.countAt, k);
      CurrentIgnoresPruning(s, k, cfg.window, a.countAt);
    }
  }

  // ------------------------------------------------------------------- invariants

  function Ceiling(cfg: Config): nat { if cfg.limit >= 1 then cfg.limit else 1 }

  ghost predicate SaneEntry(e: Entry, cfg: Config, now: int) {
    && 1 <= e.failures <= Ceiling(cfg) && e.firstAt <= now
    && (e.lockedUntil.None? ==> e.failures < Ceiling(cfg))
    && (e.lockedUntil.Some? ==> e.lockedUntil.value >= e.firstAt + cfg.lockout)
  }

  ghost predicate Sane(s: Table, cfg: Config, now: int) {
    forall k :: k in s ==> SaneEntry(s[k], cfg, now)
  }

  lemma BumpedIsSane(s: Table, k: Key, cfg: Config, now: int)
    requires k in s ==> SaneEntry(s[k], cfg, now) && !LockedAt(s[k], now)
    ensures SaneEntry(Bumped(Current(s, k, cfg.window, now), cfg, now), cfg, now)
  {
  }

  /** Passing the check on either key means neither is locked when the failure is
      counted: no failure lands on a locked key. */
  lemma CountLandsUnlocked(s: Table, a: Attempt, k: Key)
    requires CountsOn(s, a, k) && a.checkAt <= a.countAt
    ensures !Locked(s, k, a.countAt)
  {
  }

  lemma StepKeepsSane(s: Table, a: Attempt, cfg: Config, now: int)
    requires Sane(s, cfg, now) && now <= a.checkAt <= a.countAt
    ensures Sane(After(s, a, cfg), cfg, a.countAt)
  {
    var t := After(s, a, cfg);
    forall k | k in t ensures SaneEntry(t[k], cfg, a.countAt) {
      StepAt(s, a, cfg, k);
      if CountsOn(s, a, k) {
        CountLandsUnlocked(s, a, k);
        assert k in s ==> SaneEntry(s[k], cfg, now);
        BumpedIsSane(s, k, cfg, a.countAt);
      } else {
        assert SaneEntry(s[k], cfg, now);
      }
    }
  }

  /** Every table the route can reach from a fresh process. */
  lemma {:induction false} RunKeepsSane(s: Table, atts: seq<Attempt>, cfg: Config, now: int)
    requires Sane(s, cfg, now) && Timed(atts, now)
    ensures Sane(Run(s, atts, cfg), cfg, if atts == [] then now else atts[|atts| - 1].countAt)
    decreases atts
  {
    if atts != [] {
      StepKeepsSane(s, atts[0], cfg, now);
      RunKeepsSane(After(s, atts[0], cfg), atts[1..], cfg, atts[0].countAt);
    }
  }

  // ------------------------------------------------------------- locks run their course

  /** A lock is neither extended nor lifted: through any attempts before its
      announced end the key's entry stays exactly as it is. */
  lemma {:induction false} LockRunsItsCourse(s: Table, atts: seq<Attempt>, k: Key, cfg: Config, now: int)
    requires Locked(s, k, now) && Timed(atts, now)
    requires forall i | 0 <= i < |atts| :: atts[i].countAt < s[k].lockedUntil.value
    ensures k in Run(s, atts, cfg) && Run(s, atts, cfg)[k] == s[k]
    ensures Counted(s, atts, k, cfg) == 0
    decreases atts
  {
    if atts != [] {
      var a := atts[0];
      assert a.checkAt <= a.countAt < s[k].lockedUntil.value;
      StepAt(s, a, cfg, k);
      assert !CountsOn(s, a, k) && !Clears(s, a, k);
      LockRunsItsCourse(After(s, a, cfg), atts[1..], k, cfg, a.countAt);
    }
  }

  // --------------------------------------------------------------- the rate bound

  function Gap(cfg: Config): int { if cfg.window <= cfg.lockout then cfg.window else cfg.lockout }

  /** k's latest episode began at or after f with at least c failures, or it is over
      and a gap has passed since f. */
  ghost predicate Tracks(s: Table, k: Key, f: int, c: nat, cfg: Config, now: int) {
    && c <= Ceiling(cfg)
    && (k in s ==> s[k].failures >= c)
    && ((k in s && s[k].firstAt >= f) || now >= f + Gap(cfg))
  }

  /** The failures that fit in a span: the ceiling, once per whole gap. */
  function Allowance(cfg: Config, span: int): int
    requires Gap(cfg) >= 1
  {
    Ceiling(cfg) * (span / Gap(cfg))
  }

  lemma AllowanceGrows(cfg: Config, x: int, y: int)
    requires Gap(cfg) >= 1
    ensures x >= y + Gap(cfg) ==> Allowance(cfg, x) >= Allowance(cfg, y) + Ceiling(cfg)
    ensures x >= 0 ==> Allowance(cfg, x) >= 0
  {
    if x >= y + Gap(cfg) {
      DivStep(x, y, Gap(cfg));
      MulStep(Ceiling(cfg), x / Gap(cfg), y / Gap(cfg));
    }
    if x >= 0 {
      DivStep(x + Gap(cfg), 0, Gap(cfg));
      assert x / Gap(cfg) >= 0;
    }
  }

  lemma DivStep(x: int, y: int, m: int)
    requires m > 0 && x >= y + m
    ensures x / m >= y / m + 1
  {
    var p, q := x / m, y / m;
    assert x == p * m + x % m && y == q * m + y % m;
    assert (p - q) * m == x - x % m - (y - y % m) > 0;
    if p <= q {
      NonPositive(p - q, m);
    }
  }

  lemma NonPositive(d: int, m: int)
    requires d <= 0 && m > 0
    ensures d * m <= 0
  {
  }

  lemma MulStep(l: nat, g: int, h: int)
    requires g >= h + 1
    ensures l * g >= l * h + l
  {
    NonNegativeProduct(l, g - h - 1);
    assert l * g == l * h + l + l * (g - h - 1);
  }

  lemma NonNegativeProduct(x: int, y: int)
    requires x >= 0 && y >= 0
    ensures x * y >= 0
  {
  }

  /** A counted failure either continues the episode or starts one a gap later. */
  lemma CountedStep(s: Table, a: Attempt, k: Key, f: int, c: nat, cfg: Config, now: int) returns (f': int, c': nat)
    requires cfg.window >= 1 && cfg.lockout >= 1
    requires Sane(s, cfg, now) && now <= a.checkAt <= a.countAt && Tracks(s, k, f, c, cfg, now)
    requires CountsOn(s, a, k)
    ensures Tracks(After(s, a, cfg), k, f', c', cfg, a.countAt)
    ensures (f' == f && c' == c + 1) || (f' == a.countAt >= f + Gap(cfg) && c' == 1)
  {
    StepAt(s, a, cfg, k);
    CountLandsUnlocked(s, a, k);
    assert k in s ==> SaneEntry(s[k], cfg, now);
    if Current(s, k, cfg.window, a.countAt) == Entry(0, a.countAt, None) {
      f', c' := a.countAt, 1;
    } else {
      f', c' := f, c + 1;
    }
  }

  /** What is left of the budget bounds the failures still to come. */
  lemma {:induction false} RemainingBound(
      s: Table, atts: seq<Attempt>, k: Key, f: int, c: nat, cfg: Config, now: int, end: int)
    requires cfg.window >= 1 && cfg.lockout >= 1
    requires Sane(s, cfg, now) && Timed(atts, now) && NeverCleared(s, atts, k, cfg)
    requires forall i | 0 <= i < |atts| :: atts[i].countAt <= end
    requires Tracks(s, k, f, c, cfg, now) && f <= end
    ensures Counted(s, atts, k, cfg) <= Ceiling(cfg) - c + Allowance(cfg, end - f)
    decreases atts
  {
    hide Allowance, After, CountsOn, Clears, Sane, Tracks, Gap;
    TracksCeiling(s, k, f, c, cfg, now);
    if atts == [] {
      AllowanceGrows(cfg, end - f, end - f);
    } else {
      var a := atts[0];
      StepKeepsSane(s, a, cfg, now);
      if CountsOn(s, a, k) {
        var f', c' := CountedStep(s, a, k, f, c, cfg, now);
        RemainingBound(After(s, a, cfg), atts[1..], k, f', c', cfg, a.countAt, end);
        AllowanceGrows(cfg, end - f, end - f');
      } else {
        UncountedStep(s, a, k, f, c, cfg, now);
        RemainingBound(After(s, a, cfg), atts[1..], k, f, c, cfg, a.countAt, end);
      }
    }
  }

  lemma TracksCeiling(s: Table, k: Key, f: int, c: nat, cfg: Config, now: int)
    requires Tracks(s, k, f, c, cfg, now)
    ensures c <= Ceiling(cfg)
    ensures cfg.window >= 1 && cfg.lockout >= 1 ==> Gap(cfg) >= 1
  {
  }

  lemma UncountedStep(s: Table, a: Attempt, k: Key, f: int, c: nat, cfg: Config, now: int)
    requires cfg.window >= 1 && cfg.lockout >= 1
    requires Sane(s, cfg, now) && now <= a.checkAt <= a.countAt && Tracks(s, k, f, c, cfg, now)
    requires !CountsOn(s, a, k) && !Clears(s, a, k)
    ensures Tracks(After(s, a, cfg), k, f, c, cfg, a.countAt)
  {
    StepAt(s, a, cfg, k);
  }

  /** Failures counted between two moments, over a run that falls between them. */
  lemma RationedBetween(s: Table, atts: seq<Attempt>, k: Key, cfg: Config, start: int, length: nat)
    requires cfg.window >= 1 && cfg.lockout >= 1
    requires Sane(s, cfg, start) && Timed(atts, start) && NeverCleared(s, atts, k, cfg)
    requires forall i | 0 <= i < |atts| :: atts[i].countAt <= start + length
    ensures Counted(s, atts, k, cfg) <= Ceiling(cfg) * (length / Gap(cfg) + 2)
  {
    RemainingBound(s, atts, k, start - Gap(cfg), 0, cfg, start, start + length);
    Spans(Ceiling(cfg), length, Gap(cfg));
  }

  /** Failures of the run counted against k at times from `from` to `to`. */
  function CountedIn(s: Table, atts: seq<Attempt>, k: Key, cfg: Config, from: int, to: int): nat
    decreases atts
  {
    if atts == [] then 0
    else (if CountsOn(s, atts[0], k) && from <= atts[0].countAt <= to then 1 else 0)
         + CountedIn(After(s, atts[0], cfg), atts[1..], k, cfg, from, to)
  }

  /** The attempts counted by the time given. */
  function UpTo(atts: seq<Attempt>, to: int): seq<Attempt> {
    if atts == [] || atts[0].countAt > to then [] else [atts[0]] + UpTo(atts[1..], to)
  }

  lemma {:induction false} NoneLater(s: Table, atts: seq<Attempt>, k: Key, cfg: Config, now: int, from: int, to: int)
    requires Timed(atts, now) && now > to
    ensures CountedIn(s, atts, k, cfg, from, to) == 0
    decreases atts
  {
    hide After, CountsOn;
    if atts != [] {
      NoneLater(After(s, atts[0], cfg), atts[1..], k, cfg, atts[0].countAt, from, to);
    }
  }

  lemma {:induction false} UpToCounts(
      s: Table, atts: seq<Attempt>, k: Key, cfg: Config, now: int, from: int, to: int)
    requires Timed(atts, now) && from <= now && NeverCleared(s, atts, k, cfg)
    ensures Timed(UpTo(atts, to), now) && NeverCleared(s, UpTo(atts, to), k, cfg)
    ensures forall i | 0 <= i < |UpTo(atts, to)| :: UpTo(atts, to)[i].countAt <= to
    ensures CountedIn(s, atts, k, cfg, from, to) == Counted(s, UpTo(atts, to), k, cfg)
    decreases atts
  {
    hide After, CountsOn, Clears;
    if atts != [] {
      var a, rest := atts[0], atts[1..];
      if a.countAt > to {
        NoneLater(After(s, a, cfg), rest, k, cfg, a.countAt, from, to);
      } else {
        UpToCounts(After(s, a, cfg), rest, k, cfg, a.countAt, from, to);
        assert ([a] + UpTo(rest, to))[1..] == UpTo(rest, to);
      }
    }
  }

  lemma RationedFromStart(s: Table, atts: seq<Attempt>, k: Key, cfg: Config, now: int, start: int, length: nat)
    requires cfg.window >= 1 && cfg.lockout >= 1
    requires Sane(s, cfg, now) && Timed(atts, now) && NeverCleared(s, atts, k, cfg) && start <= now
    ensures CountedIn(s, atts, k, cfg, start, start + length) <= Ceiling(cfg) * (length / Gap(cfg) + 2)
  {
    hide Counted, CountedIn, NeverCleared;
    UpToCounts(s, atts, k, cfg, now, start, start + length);
    var early := UpTo(atts, start + length);
    if early == [] {
      CountedNothing(s, k, cfg);
      RationIsPositive(cfg, length);
    } else {
      var wait: int := now - start;
      assert now <= early[0].checkAt <= early[0].countAt <= start + length;
      RationedBetween(s, early, k, cfg, now, length - wait);
      RationGrows(cfg, length - wait, length);
    }
  }

  lemma CountedNothing(s: Table, k: Key, cfg: Config)
    ensures Counted(s, [], k, cfg) == 0
  {
  }

  lemma RationIsPositive(cfg: Config, length: nat)
    requires Gap(cfg) >= 1
    ensures 0 <= Ceiling(cfg) * (length / Gap(cfg) + 2)
  {
    NonNegativeProduct(Ceiling(cfg), length / Gap(cfg) + 2);
  }

  lemma RationGrows(cfg: Config, x: nat, y: nat)
    requires Gap(cfg) >= 1 && x <= y
    ensures Ceiling(cfg) * (x / Gap(cfg) + 2) <= Ceiling(cfg) * (y / Gap(cfg) + 2)
  {
    QuotientGrows(x, y, Gap(cfg));
    NonNegativeProduct(Ceiling(cfg), y / Gap(cfg) - x / Gap(cfg));
    var l, p, q := Ceiling(cfg), x / Gap(cfg), y / Gap(cfg);
    assert l * (q + 2) == l * (p + 2) + l * (q - p);
  }

  lemma QuotientGrows(x: nat, y: nat, m: int)
    requires m >= 1 && x <= y
    ensures x / m <= y / m
  {
    var p, q := x / m, y / m;
    assert x == p * m + x % m && y == q * m + y % m;
    if p > q {
      MulStep(m, p, q);
    }
  }

  /** An attempt that passes its check passes it later too, with the same effect. */
  lemma PassesLater(s: Table, a: Attempt, k: Key, cfg: Config, at: int)
    requires RetryAfter(s, Keys(a), a.checkAt) == 0 && a.checkAt <= at
    ensures var b := a.(checkAt := at);
      After(s, b, cfg) == After(s, a, cfg) && (CountsOn(s, b, k) <==> CountsOn(s, a, k))
      && (Clears(s, b, k) <==> Clears(s, a, k))
  {
    assert Keys(a.(checkAt := at)) == Keys(a);
    hide Failed, Cleared;
  }

  /** In every run of the route, a key that is never cleared has at most
      limit * (floor(T / min(window, lockout)) + 2) failures counted in any
      stretch of length T. */
  lemma {:induction false} FailuresAreRationed(
      s: Table, atts: seq<Attempt>, k: Key, cfg: Config, now: int, start: int, length: nat)
    requires cfg.window >= 1 && cfg.lockout >= 1
    requires Sane(s, cfg, now) && Timed(atts, now) && NeverCleared(s, atts, k, cfg)
    ensures CountedIn(s, atts, k, cfg, start, start + length) <= Ceiling(cfg) * (length / Gap(cfg) + 2)
    decreases atts
  {
    hide After, CountsOn, Clears, Sane, Gap, Ceiling, RetryAfter;
    if atts == [] {
      assert Gap(cfg) >= 1 by { GapIsPositive(cfg); }
      RationIsPositive(cfg, length);
    } else if start <= now {
      RationedFromStart(s, atts, k, cfg, now, start, length);
    } else {
      var a, rest := atts[0], atts[1..];
      StepKeepsSane(s, a, cfg, now);
      if a.countAt < start {
        FailuresAreRationed(After(s, a, cfg), rest, k, cfg, a.countAt, start, length);
      } else if RetryAfter(s, Keys(a), a.checkAt) > 0 {
        BlockedChangesNothing(s, a, k, cfg);
        FailuresAreRationed(s, rest, k, cfg, a.countAt, start, length);
      } else {
        var b := a.(checkAt := if a.checkAt <= start then start else a.checkAt);
        PassesLater(s, a, k, cfg, b.checkAt);
        SaneLater(s, cfg, now, start);
        assert ([b] + rest)[1..] == rest && Timed([b] + rest, start);
        RationedFromStart(s, [b] + rest, k, cfg, start, start, length);
      }
    }
  }

  lemma GapIsPositive(cfg: Config)
    requires cfg.window >= 1 && cfg.lockout >= 1
    ensures Gap(cfg) >= 1
  {
  }

  lemma BlockedChangesNothing(s: Table, a: Attempt, k: Key, cfg: Config)
    requires RetryAfter(s, Keys(a), a.checkAt) > 0
    ensures After(s, a, cfg) == s && !CountsOn(s, a, k)
  {
  }

  lemma SaneLater(s: Table, cfg: Config, now: int, later: int)
    requires Sane(s, cfg, now) && now <= later
    ensures Sane(s, cfg, later)
  {
    forall k | k in s ensures SaneEntry(s[k], cfg, later) {
      assert SaneEntry(s[k], cfg, now);
    }
  }

  lemma Spans(l: nat, length: nat, m: int)
    requires m >= 1
    ensures l + l * ((length + m) / m) == l * (length / m + 2)
  {
    OneMore(length, m);
    assert l * (length / m + 2) == l + l * (length / m + 1);
  }

  lemma OneMore(x: nat, m: int)
    requires m >= 1
    ensures (x + m) / m == x / m + 1
  {
    DivStep(x + m, x, m);
    var p, q := (x + m) / m, x / m;
    assert x + m == p * m + (x + m) % m && x == q * m + x % m;
    assert (q + 2 - p) * m == q * m + 2 * m - p * m == x - x % m + 2 * m - (x + m - (x + m) % m) > 0;
    if p >= q + 2 {
      NonPositive(q + 2 - p, m);
    }
  }

  // ------------------------------------------------------------- it does lock

  /** Every attempt of the run counts a failure against k. */
  ghost predicate AllCount(s: Table, atts: seq<Attempt>, k: Key, cfg: Config)
    decreases atts
  {
    atts == [] || (CountsOn(s, atts[0], k) && AllCount(After(s, atts[0], cfg), atts[1..], k, cfg))
  }

  /** Failures that fill up the window k is in, or the fresh one it would start, lock it
      for exactly the lockout from the last of them. */
  lemma {:induction false} LimitFailuresLock(s: Table, atts: seq<Attempt>, k: Key, cfg: Config, now: int)
    requires cfg.lockout >= 1 && atts != [] && Timed(atts, now) && AllCount(s, atts, k, cfg)
    requires var e := Current(s, k, cfg.window, atts[0].countAt);
      |atts| == cfg.limit - e.failures
      && forall i | 0 <= i < |atts| :: atts[i].countAt < e.firstAt + cfg.window
    ensures var first, last := Current(s, k, cfg.window, atts[0].countAt).firstAt, atts[|atts| - 1].countAt;
      k in Run(s, atts, cfg) && Run(s, atts, cfg)[k] == Entry(cfg.limit, first, Some(last + cfg.lockout))
    decreases atts
  {
    hide After, CountsOn, RetryAfter;
    var a := atts[0];
    StepAt(s, a, cfg, k);
    CountLandsUnlocked(s, a, k);
    if |atts| > 1 {
      LimitFailuresLock(After(s, a, cfg), atts[1..], k, cfg, a.countAt);
    }
  }

  // ------------------------------------------------------------ the wait announced

  /** Ticks until the first of the locked keys is unlocked; 0 when none is locked. */
  function Soonest(s: Table, keys: seq<Key>, now: int): (wait: nat)
    ensures wait > 0 ==> exists k :: k in keys && Locked(s, k, now) && s[k].lockedUntil.value == now + wait
    ensures forall k :: k in keys && Locked(s, k, now) ==> 0 < wait && now + wait <= s[k].lockedUntil.value
  {
    if keys == [] then 0
    else
      var k, rest := keys[0], Soonest(s, keys[1..], now);
      assert keys == [k] + keys[1..];
      if Locked(s, k, now) && (rest == 0 || s[k].lockedUntil.value - now < rest)
      then s[k].lockedUntil.value - now else rest
  }

  /** The wait announced is the soonest unlock exactly if all locked keys unlock together. */
  lemma WaitIsSoonestIff(s: Table, keys: seq<Key>, now: int)
    ensures RetryAfter(s, keys, now) == Soonest(s, keys, now) <==>
              forall j, k | j in keys && k in keys && Locked(s, j, now) && Locked(s, k, now) ::
                s[j].lockedUntil == s[k].lockedUntil
  {
    hide RetryAfter, Soonest;
    var longest, soonest := RetryAfter(s, keys, now), Soonest(s, keys, now);
    if longest > 0 && soonest > 0 {
      var j :| j in keys && Locked(s, j, now) && s[j].lockedUntil.value == now + longest;
      var k :| k in keys && Locked(s, k, now) && s[k].lockedUntil.value == now + soonest;
    }
  }

  /** An address locked for ten more ticks and an account for twenty: the wait is twenty. */
  lemma WaitIsNotSoonest(address: string, email: string)
    ensures var s := map[Ip(address) := Entry(5, 0, Some(10)), Account(email) := Entry(5, 0, Some(20))];
      var keys := [Ip(address), Account(email)];
      RetryAfter(s, keys, 0) == 20 && Soonest(s, keys, 0) == 10
  {
    var s := map[Ip(address) := Entry(5, 0, Some(10)), Account(email) := Entry(5, 0, Some(20))];
    var keys := [Ip(address), Account(email)];
    assert Ip(address) in keys && Locked(s, Ip(address), 0);
    assert Account(email) in keys && Locked(s, Account(email), 0);
  }

  /** The answer to a refused attempt says whether one of its keys is now locked. */
  lemma RefusalAnnouncesLock(s: Table, a: Attempt, cfg: Config, now: int)
    requires cfg.lockout >= 1 && Sane(s, cfg, now) && now <= a.checkAt <= a.countAt
    requires Reply(s, a, cfg).Refused?
    ensures Reply(s, a, cfg).nowLocked <==> exists k :: k in Keys(a) && Locked(After(s, a, cfg), k, a.countAt)
  {
    var t := Trimmed(s, cfg, a.countAt);
    var k0, k1 := Keys(a)[0], Keys(a)[1];
    TwoKeysTrip(t, k0, k1, cfg, a.countAt);
    forall k | k in Keys(a)
      ensures Locked(After(s, a, cfg), k, a.countAt)
          <==> Bumped(Current(t, k, cfg.window, a.countAt), cfg, a.countAt).failures >= cfg.limit
    {
      assert CountsOn(s, a, k);
      StepAt(s, a, cfg, k);
      CurrentIgnoresPruning(s, k, cfg.window, a.countAt);
      CountLandsUnlocked(s, a, k);
    }
  }

  lemma TwoKeysTrip(s: Table, k0: Key, k1: Key, cfg: Config, now: int)
    requires k0 != k1
    ensures AnyTripped(s, [k0, k1], cfg, now) <==>
      (Bumped(Current(s, k0, cfg.window, now), cfg, now).failures >= cfg.limit ||
       Bumped(Current(s, k1, cfg.window, now), cfg, now).failures >= cfg.limit)
  {
    assert [k0, k1][1..] == [k1] && [k1][1..] == [];
    var s' := s[k0 := Bumped(Current(s, k0, cfg.window, now), cfg, now)];
    assert !AnyTripped(s'[k1 := Bumped(Current(s', k1, cfg.window, now), cfg, now)], [], cfg, now);
  }

  // ----------------------------------------------------------- pruning is invisible

  /** Any use of the limiter, with pruning allowed at any point. */
  datatype Op =
    | Ask(keys: seq<Key>, at: int)
    | Fail(keys: seq<Key>, at: int)
    | Forget(keys: seq<Key>)
    | Prune(at: int)

  datatype Heard = Wait(ticks: nat) | Tripped(locked: bool) | Nothing

  ghost predicate OnTime(op: Op, now: int) { op.Forget? || op.at >= now }

  function Clock(op: Op, now: int): int { if op.Forget? then now else op.at }

  ghost predicate InOrder(ops: seq<Op>, now: int)
    decreases ops
  {
    ops == [] || (OnTime(ops[0], now) && InOrder(ops[1..], Clock(ops[0], now)))
  }

  function Apply(s: Table, op: Op, cfg: Config): Table {
    match op
    case Ask(_, _) => s
    case Fail(keys, at) => Failed(s, keys, cfg, at)
    case Forget(keys) => Cleared(s, keys)
    case Prune(at) => Pruned(s, cfg.window, at)
  }

  function Hear(s: Table, op: Op, cfg: Config): Heard {
    match op
    case Ask(keys, at) => Wait(RetryAfter(s, keys, at))
    case Fail(keys, at) => Tripped(AnyTripped(Trimmed(s, cfg, at), keys, cfg, at))
    case Forget(_) => Nothing
    case Prune(_) => Nothing
  }

  /** Everything the callers hear; pruning itself says nothing. */
  function Transcript(s: Table, ops: seq<Op>, cfg: Config): seq<Heard>
    decreases ops
  {
    if ops == [] then []
    else (if ops[0].Prune? then [] else [Hear(s, ops[0], cfg)]) + Transcript(Apply(s, ops[0], cfg), ops[1..], cfg)
  }

  function WithoutPrunes(ops: seq<Op>): seq<Op> {
    if ops == [] then []
    else (if ops[0].Prune? then [] else [ops[0]]) + WithoutPrunes(ops[1..])
  }

  /** Tables that differ only in entries dead at `now`. */
  ghost predicate SameLive(s: Table, t: Table, window: int, now: int) {
    forall k :: SameAt(s, t, k, window, now)
  }

  ghost predicate SameAt(s: Table, t: Table, k: Key, window: int, now: int) {
    || (k in s && k in t && s[k] == t[k])
    || ((k in s ==> Dead(s[k], window, now)) && (k in t ==> Dead(t[k], window, now)))
  }

  lemma {:induction false} SameWait(s: Table, t: Table, keys: seq<Key>, window: int, now: int)
    requires SameLive(s, t, window, now)
    ensures RetryAfter(s, keys, now) == RetryAfter(t, keys, now)
  {
    if keys != [] {
      assert SameAt(s, t, keys[0], window, now);
      SameWait(s, t, keys[1..], window, now);
    }
  }

  /** Dead entries are invisible to a failure: it starts afresh either way. */
  lemma {:induction false} SameBump(s: Table, t: Table, keys: seq<Key>, cfg: Config, now: int)
    requires SameLive(s, t, cfg.window, now)
    ensures SameLive(BumpAll(s, keys, cfg, now), BumpAll(t, keys, cfg, now), cfg.window, now)
    ensures AnyTripped(s, keys, cfg, now) == AnyTripped(t, keys, cfg, now)
    decreases keys
  {
    if keys != [] {
      var k := keys[0];
      assert SameAt(s, t, k, cfg.window, now);
      assert Current(s, k, cfg.window, now) == Current(t, k, cfg.window, now);
      var e := Bumped(Current(s, k, cfg.window, now), cfg, now);
      var s', t' := s[k := e], t[k := e];
      forall j ensures SameAt(s', t', j, cfg.window, now) {
        assert SameAt(s, t, j, cfg.window, now);
      }
      SameBump(s', t', keys[1..], cfg, now);
    }
  }

  lemma SameLater(s: Table, t: Table, window: int, now: int, at: int)
    requires SameLive(s, t, window, now) && now <= at
    ensures SameLive(s, t, window, at)
  {
    forall k ensures SameAt(s, t, k, window, at) {
      assert SameAt(s, t, k, window, now);
    }
  }

  lemma SamePruned(s: Table, t: Table, window: int, now: int)
    requires SameLive(s, t, window, now)
    ensures SameLive(Pruned(s, window, now), t, window, now)
    ensures SameLive(s, Pruned(t, window, now), window, now)
    ensures SameLive(Pruned(s, window, now), Pruned(t, window, now), window, now)
  {
    forall k ensures SameAt(Pruned(s, window, now), t, k, window, now) {
      assert SameAt(s, t, k, window, now);
    }
    forall k ensures SameAt(s, Pruned(t, window, now), k, window, now) {
      assert SameAt(s, t, k, window, now);
    }
    forall k ensures SameAt(Pruned(s, window, now), Pruned(t, window, now), k, window, now) {
      assert SameAt(s, t, k, window, now);
    }
  }

  lemma StepSame(s: Table, t: Table, op: Op, cfg: Config, tracked: nat, now: int)
    requires SameLive(s, t, cfg.window, now) && OnTime(op, now)
    ensures Hear(s, op, cfg) == Hear(t, op, cfg.(maxTracked := tracked))
    ensures SameLive(Apply(s, op, cfg), Apply(t, op, cfg.(maxTracked := tracked)), cfg.window, Clock(op, now))
    ensures op.Prune? ==> SameLive(Apply(s, op, cfg), t, cfg.window, Clock(op, now))
  {
    var at := Clock(op, now);
    SameLater(s, t, cfg.window, now, at);
    SamePruned(s, t, cfg.window, at);
    var other := cfg.(maxTracked := tracked);
    match op {
      case Ask(keys, _) => SameWait(s, t, keys, cfg.window, at);
      case Fail(keys, _) =>
        SameBump(Trimmed(s, cfg, at), Trimmed(t, other, at), keys, cfg, at);
        SameConfig(Trimmed(t, other, at), keys, cfg, other, at);
      case Forget(keys) =>
        forall k ensures SameAt(Cleared(s, keys), Cleared(t, keys), k, cfg.window, at) {
          assert SameAt(s, t, k, cfg.window, at);
        }
      case Prune(_) =>
    }
  }

  /** Counting does not look at the size limit of the table. */
  lemma {:induction false} SameConfig(s: Table, keys: seq<Key>, cfg: Config, other: Config, now: int)
    requires other == cfg.(maxTracked := other.maxTracked)
    ensures BumpAll(s, keys, cfg, now) == BumpAll(s, keys, other, now)
    ensures AnyTripped(s, keys, cfg, now) == AnyTripped(s, keys, other, now)
    decreases keys
  {
    if keys != [] {
      SameConfig(s[keys[0] := Bumped(Current(s, keys[0], cfg.window, now), cfg, now)], keys[1..], cfg, other, now);
    }
  }

  lemma TranscriptCons(t: Table, op: Op, rest: seq<Op>, cfg: Config)
    requires !op.Prune?
    ensures Transcript(t, [op] + rest, cfg) == [Hear(t, op, cfg)] + Transcript(Apply(t, op, cfg), rest, cfg)
  {
    assert ([op] + rest)[0] == op && ([op] + rest)[1..] == rest;
  }

  /** Pruning can never be noticed: with prunes inserted anywhere, and with any
      bound on the table's size, every caller hears exactly what an unpruned
      limiter would have said. */
  lemma {:induction false} PruningIsInvisible(s: Table, t: Table, ops: seq<Op>, cfg: Config, tracked: nat, now: int)
    requires SameLive(s, t, cfg.window, now) && InOrder(ops, now)
    ensures Transcript(s, ops, cfg) == Transcript(t, WithoutPrunes(ops), cfg.(maxTracked := tracked))
    decreases ops
  {
    if ops != [] {
      var op, other := ops[0], cfg.(maxTracked := tracked);
      StepSame(s, t, op, cfg, tracked, now);
      if op.Prune? {
        var rest := Transcript(Apply(s, op, cfg), ops[1..], cfg);
        assert [] + rest == rest && [] + WithoutPrunes(ops[1..]) == WithoutPrunes(ops[1..]);
        PruningIsInvisible(Apply(s, op, cfg), t, ops[1..], cfg, tracked, Clock(op, now));
      } else {
        PruningIsInvisible(Apply(s, op, cfg), Apply(t, op, other), ops[1..], cfg, tracked, Clock(op, now));
        TranscriptCons(t, op, WithoutPrunes(ops[1..]), other);
      }
    }
  }
}
