/** The per-address submission cap of app/access_requests.py: a sliding-window log
    in a table of bounded size. Times are ticks of one monotonic clock. */
module AccessLimiter {

  const HOUR := 3600
  const MAX_TRACKED := 5000

  type Address = string
  type Table = map<Address, seq<int>>

  predicate Recent(t: int, now: int) { now - t < HOUR }

  function Within(ts: seq<int>, now: int): (r: seq<int>)
    ensures |r| <= |ts|
  {
    if ts == [] then []
    else if Recent(ts[0], now) then [ts[0]] + Within(ts[1..], now)
    else Within(ts[1..], now)
  }

  function Stamps(s: Table, ip: Address): seq<int> { if ip in s then s[ip] else [] }

  predicate Live(s: Table, ip: Address, now: int) { Within(Stamps(s, ip), now) != [] }

  /** The table without the addresses that have nothing inside the window. */
  function Swept(s: Table, now: int): Table { map k | k in s && Live(s, k, now) :: s[k] }

  predicate Accepts(s: Table, ip: Address, now: int, limit: int) {
    && |Within(Stamps(s, ip), now)| < limit
    && (|s| < MAX_TRACKED || ip in s || |Swept(s, now)| < MAX_TRACKED)
  }

  function After(s: Table, ip: Address, now: int, limit: int): Table {
    var recent := Within(Stamps(s, ip), now);
    if |recent| >= limit then s[ip := recent]
    else if |s| < MAX_TRACKED || ip in s then s[ip := recent + [now]]
    else if |Swept(s, now)| >= MAX_TRACKED then Swept(s, now)
    else Swept(s, now)[ip := recent + [now]]
  }

  // ------------------------------------------------ counting by the clock

  /** The stamps, by position, that are less than an hour old. */
  ghost function InLastHour(ts: seq<int>, now: int): set<nat> { set i: nat | i < |ts| && now - ts[i] < 3600 }

  /** Addresses with a stamp less than an hour old. */
  ghost function LiveAddresses(log: Table, now: int): set<Address> {
    set k | k in log && InLastHour(log[k], now) != {}
  }

  /** The filter keeps one stamp for each position inside the hour. */
  lemma {:induction false} WithinCounts(ts: seq<int>, now: int)
    ensures |Within(ts, now)| == |InLastHour(ts, now)|
  {
    if ts != [] {
      hide InLastHour, Shifted;
      WithinCounts(ts[1..], now);
      HourCons(ts, now);
      ShiftedCount(InLastHour(ts[1..], now));
    }
  }

  lemma HourCons(ts: seq<int>, now: int)
    requires ts != []
    ensures var shifted := Shifted(InLastHour(ts[1..], now));
      0 !in shifted && InLastHour(ts, now) == (if now - ts[0] < 3600 then {0} else {}) + shifted
  {
    var rest := InLastHour(ts[1..], now);
    assert forall i: nat :: 0 < i < |ts| ==> ts[i] == ts[1..][i - 1];
    forall i: nat | i > 0 ensures i in InLastHour(ts, now) <==> i in Shifted(rest) {
      if i in InLastHour(ts, now) {
        assert i - 1 in rest;
      }
    }
  }

  ghost function Shifted(a: set<nat>): set<nat> { set i | i in a :: i + 1 }

  lemma {:induction false} ShiftedCount(a: set<nat>)
    ensures |Shifted(a)| == |a|
  {
    if a != {} {
      var x :| x in a;
      ShiftedCount(a - {x});
      forall y | y in Shifted(a) ensures y in Shifted(a - {x}) + {x + 1} {
        var i :| i in a && y == i + 1;
        assert i == x || i in a - {x};
      }
      assert Shifted(a) == Shifted(a - {x}) + {x + 1};
    }
  }

  lemma LiveIffInHour(s: Table, ip: Address, now: int)
    ensures Live(s, ip, now) <==> ip in s && InLastHour(s[ip], now) != {}
  {
    WithinCounts(Stamps(s, ip), now);
    if InLastHour(Stamps(s, ip), now) != {} {
      var i :| i in InLastHour(Stamps(s, ip), now);
    }
  }

  lemma SweptAddresses(s: Table, now: int)
    ensures Swept(s, now).Keys == LiveAddresses(s, now)
    ensures |Swept(s, now)| == |LiveAddresses(s, now)|
    ensures forall k :: k in Swept(s, now) ==> k in s && Swept(s, now)[k] == s[k]
  {
    assert |Swept(s, now)| == |Swept(s, now).Keys|;
    forall k | k in s ensures Live(s, k, now) <==> InLastHour(s[k], now) != {} {
      LiveIffInHour(s, k, now);
    }
  }

  /** A submission of an address that has used its cap. */
  lemma RefusedAtCap(s: Table, ip: Address, now: int, limit: int)
    requires |InLastHour(Stamps(s, ip), now)| >= limit
    ensures !Accepts(s, ip, now, limit) && After(s, ip, now, limit) == s[ip := Within(Stamps(s, ip), now)]
  {
    hide InLastHour, Within, Stamps, Swept;
    WithinCounts(Stamps(s, ip), now);
  }

  /** One of an address in the table, or with room in it. */
  lemma AcceptedWithRoom(s: Table, ip: Address, now: int, limit: int)
    requires |InLastHour(Stamps(s, ip), now)| < limit && (ip in s || |s| < 5000)
    ensures Accepts(s, ip, now, limit) && After(s, ip, now, limit) == s[ip := Within(Stamps(s, ip), now) + [now]]
  {
    hide InLastHour, Within, Stamps, Swept;
    WithinCounts(Stamps(s, ip), now);
  }

  /** One of a new address against a full table, which is swept first. */
  lemma SweptForRoom(s: Table, ip: Address, now: int, limit: int)
    requires |InLastHour(Stamps(s, ip), now)| < limit && ip !in s && |s| >= 5000
    ensures Accepts(s, ip, now, limit) <==> |LiveAddresses(s, now)| < 5000
    ensures After(s, ip, now, limit) == if |LiveAddresses(s, now)| < 5000
                                       then Swept(s, now)[ip := Within(Stamps(s, ip), now) + [now]] else Swept(s, now)
    ensures Swept(s, now).Keys == LiveAddresses(s, now)
    ensures forall k :: k in Swept(s, now) ==> k in s && Swept(s, now)[k] == s[k]
  {
    hide InLastHour, Within, Stamps, Swept, LiveAddresses;
    WithinCounts(Stamps(s, ip), now);
    SweptAddresses(s, now);
  }

  /** One submission, counted by the clock: what is answered, and what the table holds. */
  lemma AllowMeans(s: Table, ip: Address, now: int, limit: int)
    ensures var t, ok, used := After(s, ip, now, limit), Accepts(s, ip, now, limit), |InLastHour(Stamps(s, ip), now)|;
      && (ok <==> used < limit && (ip in s || |s| < 5000 || |LiveAddresses(s, now)| < 5000))
      && (ok ==> ip in t && t[ip] == Within(Stamps(s, ip), now) + [now])
      && (used >= limit ==> t == s[ip := Within(Stamps(s, ip), now)])
      && (used < limit ==>
            t.Keys == (if ip in s || |s| < 5000 then s.Keys else LiveAddresses(s, now)) + (if ok then {ip} else {}))
      && (forall k :: k in t && k != ip ==> k in s && t[k] == s[k])
  {
    hide *;
    var recent := Within(Stamps(s, ip), now);
    if |InLastHour(Stamps(s, ip), now)| >= limit {
      RefusedAtCap(s, ip, now, limit);
      OneSet(s, ip, recent);
    } else if ip in s || |s| < 5000 {
      AcceptedWithRoom(s, ip, now, limit);
      OneSet(s, ip, recent + [now]);
    } else {
      SweptForRoom(s, ip, now, limit);
      OneSet(Swept(s, now), ip, recent + [now]);
    }
  }

  lemma OneSet(s: Table, ip: Address, ts: seq<int>)
    ensures s[ip := ts].Keys == s.Keys + {ip} && s[ip := ts][ip] == ts
    ensures forall k :: k in s[ip := ts] && k != ip ==> k in s && s[ip := ts][k] == s[k]
  {
  }

  class Cap {
    var hits: Table
    const limit: int

    constructor (limit: int)
      ensures hits == map[] && this.limit == limit
    {
      this.limit := limit;
      hits := map[];
    }

    method Filter(ts: seq<int>, now: int) returns (recent: seq<int>)
      ensures recent == Within(ts, now)
    {
      recent := [];
      for i := 0 to |ts|
        invariant Within(ts, now) == recent + Within(ts[i..], now)
      {
        assert ts[i..][0] == ts[i] && ts[i..][1..] == ts[i + 1..];
        if Recent(ts[i], now) {
          recent := recent + [ts[i]];
        }
      }
    }

    /** Delete every address with nothing inside the window. */
    method Sweep(now: int)
      modifies this
      ensures hits == Swept(old(hits), now)
      ensures hits.Keys == LiveAddresses(old(hits), now) && forall k :: k in hits ==> hits[k] == old(hits)[k]
    {
      SweptAddresses(hits, now);
      var todo, stale: set<Address> := hits.Keys, {};
      while todo != {}
        invariant todo <= hits.Keys && hits == old(hits)
        invariant stale == set k | k in hits && k !in todo && !Live(hits, k, now)
        decreases todo
      {
        var key :| key in todo;
        todo := todo - {key};
        var recent := Filter(hits[key], now);
        if recent == [] {
          stale := stale + {key};
        }
      }
      hits := hits - stale;
    }

    /** `_allow` */
    method Allow(ip: Address, now: int) returns (ok: bool)
      modifies this
      ensures hits == After(old(hits), ip, now, limit)
      ensures ok == Accepts(old(hits), ip, now, limit)
      ensures ok <==> |InLastHour(Stamps(old(hits), ip), now)| < limit
                      && (ip in old(hits) || |old(hits)| < 5000 || |LiveAddresses(old(hits), now)| < 5000)
      ensures ok ==> ip in hits && hits[ip] == Within(Stamps(old(hits), ip), now) + [now]
      ensures |InLastHour(Stamps(old(hits), ip), now)| >= limit ==>
                hits == old(hits)[ip := Within(Stamps(old(hits), ip), now)]
      ensures |InLastHour(Stamps(old(hits), ip), now)| < limit ==>
                hits.Keys == (if ip in old(hits) || |old(hits)| < 5000 then old(hits).Keys
                              else LiveAddresses(old(hits), now)) + (if ok then {ip} else {})
      ensures forall k :: k in hits && k != ip ==> k in old(hits) && hits[k] == old(hits)[k]
    {
      hide InLastHour, LiveAddresses;
      AllowMeans(hits, ip, now, limit);
      var recent := Filter(Stamps(hits, ip), now);
      if |recent| >= limit {
        hits := hits[ip := recent];
        return false;
      }
      if |hits| >= MAX_TRACKED && ip !in hits {
        Sweep(now);
        if |hits| >= MAX_TRACKED {
          return false;
        }
      }
      hits := hits[ip := recent + [now]];
      return true;
    }
  }

  // ------------------------------------------------------------------------- runs

  datatype Call = Call(ip: Address, at: int)

  ghost predicate Timed(calls: seq<Call>, start: int)
    decreases calls
  {
    calls == [] || (start <= calls[0].at && Timed(calls[1..], calls[0].at))
  }

  function Run(s: Table, calls: seq<Call>, limit: int): Table
    decreases calls
  {
    if calls == [] then s else Run(After(s, calls[0].ip, calls[0].at, limit), calls[1..], limit)
  }

  function Answers(s: Table, calls: seq<Call>, limit: int): (r: seq<bool>)
    ensures |r| == |calls|
    decreases calls
  {
    if calls == [] then []
    else [Accepts(s, calls[0].ip, calls[0].at, limit)]
         + Answers(After(s, calls[0].ip, calls[0].at, limit), calls[1..], limit)
  }

  // ------------------------------------------------ the ideal log, and the bound

  /** Every acceptance ever, per address: nothing is forgotten, nothing is bounded. */
  ghost function IdealAfter(log: Table, ip: Address, now: int, limit: int): Table {
    if IdealAccepts(log, ip, now, limit) then log[ip := Stamps(log, ip) + [now]] else log
  }

  /** Fewer than `limit` of the address's acceptances are less than an hour old. */
  ghost predicate IdealAccepts(log: Table, ip: Address, now: int, limit: int) {
    |InLastHour(Stamps(log, ip), now)| < limit
  }

  ghost function IdealAnswers(log: Table, calls: seq<Call>, limit: int): (r: seq<bool>)
    ensures |r| == |calls|
    decreases calls
  {
    if calls == [] then []
    else [IdealAccepts(log, calls[0].ip, calls[0].at, limit)]
         + IdealAnswers(IdealAfter(log, calls[0].ip, calls[0].at, limit), calls[1..], limit)
  }

  /** What the filter keeps of one stamp; of a list it keeps that of each, in order. */
  lemma WithinOne(t: int, now: int)
    ensures Within([t], now) == if now - t < 3600 then [t] else []
  {
    assert [t][1..] == [];
  }

  lemma WithinCons(t: int, ts: seq<int>, now: int)
    ensures Within([t] + ts, now) == (if Recent(t, now) then [t] else []) + Within(ts, now)
  {
    assert ([t] + ts)[1..] == ts;
  }

  lemma {:induction false} WithinAppend(a: seq<int>, b: seq<int>, now: int)
    ensures Within(a + b, now) == Within(a, now) + Within(b, now)
  {
    if a == [] {
      assert a + b == b;
    } else {
      hide Within;
      WithinAppend(a[1..], b, now);
      assert a == [a[0]] + a[1..] && a + b == [a[0]] + (a[1..] + b);
      WithinCons(a[0], a[1..], now);
      WithinCons(a[0], a[1..] + b, now);
    }
  }

  /** Filtering later sees through filtering earlier. */
  lemma {:induction false} WithinTwice(ts: seq<int>, now: int, later: int)
    requires now <= later
    ensures Within(Within(ts, now), later) == Within(ts, later)
  {
    if ts != [] {
      WithinTwice(ts[1..], now, later);
      var rest := Within(ts[1..], now);
      assert ([ts[0]] + rest)[1..] == rest;
    }
  }

  lemma {:induction false} WithinShrinks(ts: seq<int>, now: int, later: int)
    requires now <= later
    ensures |Within(ts, later)| <= |Within(ts, now)|
  {
    if ts != [] {
      WithinShrinks(ts[1..], now, later);
    }
  }

  /** The table agrees with the log on everything that can still matter. */
  ghost predicate Agree(s: Table, log: Table, now: int) {
    forall ip: Address :: Within(Stamps(s, ip), now) == Within(Stamps(log, ip), now)
  }

  lemma AgreeLater(s: Table, log: Table, now: int, later: int)
    requires Agree(s, log, now) && now <= later
    ensures Agree(s, log, later)
  {
    forall ip: Address ensures Within(Stamps(s, ip), later) == Within(Stamps(log, ip), later) {
      WithinTwice(Stamps(s, ip), now, later);
      WithinTwice(Stamps(log, ip), now, later);
    }
  }

  lemma SweptIsLive(s: Table, log: Table, now: int)
    requires Agree(s, log, now)
    ensures |Swept(s, now)| == |LiveAddresses(log, now)|
  {
    SweptAddresses(log, now);
    forall k: Address ensures k in Swept(s, now) <==> k in Swept(log, now) {
      assert Within(Stamps(s, k), now) == Within(Stamps(log, k), now);
    }
    assert Swept(s, now).Keys == LiveAddresses(log, now);
  }

  /** One call: the answer is the ideal one unless the table is full of live
      addresses and this address is not in it, and then it is a refusal. */
  lemma AllowVersusIdeal(s: Table, log: Table, ip: Address, now: int, limit: int)
    requires Agree(s, log, now)
    ensures Accepts(s, ip, now, limit) <==>
      (IdealAccepts(log, ip, now, limit) &&
       !(ip !in s && |s| >= 5000 && |LiveAddresses(log, now)| >= 5000))
  {
    SweptIsLive(s, log, now);
    assert Within(Stamps(s, ip), now) == Within(Stamps(log, ip), now);
    WithinCounts(Stamps(log, ip), now);
  }

  lemma StepAgrees(s: Table, log: Table, ip: Address, now: int, limit: int)
    requires Agree(s, log, now)
    ensures var log' := if Accepts(s, ip, now, limit) then log[ip := Stamps(log, ip) + [now]] else log;
            Agree(After(s, ip, now, limit), log', now)
  {
    var s' := After(s, ip, now, limit);
    var log' := if Accepts(s, ip, now, limit) then log[ip := Stamps(log, ip) + [now]] else log;
    var recent := Within(Stamps(s, ip), now);
    WithinTwice(Stamps(s, ip), now, now);
    WithinAppend(recent, [now], now);
    WithinAppend(Stamps(log, ip), [now], now);
    forall k: Address ensures Within(Stamps(s', k), now) == Within(Stamps(log', k), now) {
      assert Within(Stamps(s, k), now) == Within(Stamps(log, k), now);
    }
  }

  /** Before each call, fewer than 5000 addresses have a live stamp. */
  ghost predicate Roomy(log: Table, calls: seq<Call>, limit: int)
    decreases calls
  {
    calls == [] ||
    (|LiveAddresses(log, calls[0].at)| < 5000
     && Roomy(IdealAfter(log, calls[0].ip, calls[0].at, limit), calls[1..], limit))
  }

  /** Over a whole run the bounded, swept table answers every call as the ideal
      unbounded log would, as long as it is never full of live addresses. */
  lemma {:induction false} AnswersAreIdeal(s: Table, log: Table, calls: seq<Call>, limit: int, now: int)
    requires Agree(s, log, now) && Timed(calls, now) && Roomy(log, calls, limit)
    ensures Answers(s, calls, limit) == IdealAnswers(log, calls, limit)
    decreases calls
  {
    if calls != [] {
      var c := calls[0];
      AgreeLater(s, log, now, c.at);
      AllowVersusIdeal(s, log, c.ip, c.at, limit);
      StepAgrees(s, log, c.ip, c.at, limit);
      AnswersAreIdeal(After(s, c.ip, c.at, limit), IdealAfter(log, c.ip, c.at, limit), calls[1..], limit, c.at);
    }
  }

  // ------------------------------------------------------------------ the ration

  /** What the run accepts, per address, whatever the table forgets. */
  function Accepted(s: Table, log: Table, calls: seq<Call>, limit: int): Table
    decreases calls
  {
    if calls == [] then log
    else
      var c := calls[0];
      var log' := if Accepts(s, c.ip, c.at, limit) then log[c.ip := Stamps(log, c.ip) + [c.at]] else log;
      Accepted(After(s, c.ip, c.at, limit), log', calls[1..], limit)
  }

  ghost predicate Ordered(ts: seq<int>, now: int) {
    (forall i, j :: 0 <= i < j < |ts| ==> ts[i] <= ts[j]) && (forall i | 0 <= i < |ts| :: ts[i] <= now)
  }

  /** Any acceptances less than an hour apart number at most `limit`. */
  ghost predicate Rationed(ts: seq<int>, limit: int) {
    forall i, j :: 0 <= i <= j < |ts| && ts[j] - ts[i] < 3600 ==> j - i + 1 <= limit
  }

  ghost predicate Fair(log: Table, limit: int, now: int) {
    forall ip: Address :: Ordered(Stamps(log, ip), now) && Rationed(Stamps(log, ip), limit)
  }

  lemma {:induction false} RecentSuffix(ts: seq<int>, now: int, i: nat)
    requires Ordered(ts, now) && i < |ts| && Recent(ts[i], now)
    ensures |Within(ts, now)| >= |ts| - i
  {
    if i > 0 {
      RecentSuffix(ts[1..], now, i - 1);
    } else if |ts| > 1 {
      RecentSuffix(ts[1..], now, 0);
    }
  }

  lemma AppendRationed(ts: seq<int>, now: int, limit: int)
    requires Ordered(ts, now) && Rationed(ts, limit) && |Within(ts, now)| < limit
    ensures Ordered(ts + [now], now) && Rationed(ts + [now], limit)
  {
    var us := ts + [now];
    forall i, j | 0 <= i <= j < |us| && us[j] - us[i] < HOUR ensures j - i + 1 <= limit {
      if j == |ts| && i < j {
        RecentSuffix(ts, now, i);
      }
    }
  }

  /** In every run at most `limit` submissions per address are accepted within any
      hour, through any sweeping of the table. */
  lemma {:induction false} AcceptancesAreRationed(s: Table, log: Table, calls: seq<Call>, limit: int, now: int)
    requires Agree(s, log, now) && Fair(log, limit, now) && Timed(calls, now)
    ensures forall ip: Address :: Rationed(Stamps(Accepted(s, log, calls, limit), ip), limit)
    decreases calls
  {
    if calls == [] {
      assert forall ip: Address :: Ordered(Stamps(log, ip), now) && Rationed(Stamps(log, ip), limit);
    } else {
      hide After, Accepts, Agree, Fair, Rationed, Stamps;
      var c := calls[0];
      AgreeLater(s, log, now, c.at);
      StepAgrees(s, log, c.ip, c.at, limit);
      if Accepts(s, c.ip, c.at, limit) {
        AcceptedHasRoom(s, log, c.ip, c.at, limit);
      }
      StepFair(log, c.ip, now, c.at, limit, Accepts(s, c.ip, c.at, limit));
      var log' := if Accepts(s, c.ip, c.at, limit) then log[c.ip := Stamps(log, c.ip) + [c.at]] else log;
      AcceptancesAreRationed(After(s, c.ip, c.at, limit), log', calls[1..], limit, c.at);
    }
  }

  /** The n-th call of any run, against the acceptances before it: refused if `limit` of its
      address are less than an hour old, and accepted if fewer are and there is room. */
  lemma {:induction false} EachAnswer(s: Table, log: Table, calls: seq<Call>, limit: int, now: int, n: nat)
    requires Agree(s, log, now) && Timed(calls, now) && n < |calls|
    ensures var before, c := Accepted(s, log, calls[..n], limit), calls[n];
      && (Answers(s, calls, limit)[n] ==> |InLastHour(Stamps(before, c.ip), c.at)| < limit)
      && (|InLastHour(Stamps(before, c.ip), c.at)| < limit && |LiveAddresses(before, c.at)| < 5000 ==>
            Answers(s, calls, limit)[n])
    decreases calls
  {
    hide Accepts, After, Agree, InLastHour, LiveAddresses;
    var c := calls[0];
    AgreeLater(s, log, now, c.at);
    if n == 0 {
      AllowVersusIdeal(s, log, c.ip, c.at, limit);
    } else {
      StepAgrees(s, log, c.ip, c.at, limit);
      var log' := if Accepts(s, c.ip, c.at, limit) then log[c.ip := Stamps(log, c.ip) + [c.at]] else log;
      EachAnswer(After(s, c.ip, c.at, limit), log', calls[1..], limit, c.at, n - 1);
      assert calls[..n][0] == c && calls[..n][1..] == calls[1..][..n - 1];
    }
  }

  lemma AcceptedHasRoom(s: Table, log: Table, ip: Address, at: int, limit: int)
    requires Agree(s, log, at) && Accepts(s, ip, at, limit)
    ensures |Within(Stamps(log, ip), at)| < limit
  {
    hide Agree, Accepts;
    AllowVersusIdeal(s, log, ip, at, limit);
    WithinCounts(Stamps(log, ip), at);
  }

  lemma StepFair(log: Table, ip: Address, now: int, at: int, limit: int, accepted: bool)
    requires Fair(log, limit, now) && now <= at && (accepted ==> |Within(Stamps(log, ip), at)| < limit)
    ensures Fair(if accepted then log[ip := Stamps(log, ip) + [at]] else log, limit, at)
  {
    hide Rationed, Within;
    var log' := if accepted then log[ip := Stamps(log, ip) + [at]] else log;
    forall k: Address ensures Ordered(Stamps(log', k), at) && Rationed(Stamps(log', k), limit) {
      assert Ordered(Stamps(log, k), now) && Rationed(Stamps(log, k), limit);
      if k == ip && accepted {
        AppendRationed(Stamps(log, ip), at, limit);
      }
    }
  }

  // -------------------------------------------------------------- the table's size

  lemma StepBounded(s: Table, ip: Address, now: int, limit: int)
    requires limit >= 1 && |s| <= MAX_TRACKED
    ensures |After(s, ip, now, limit)| <= MAX_TRACKED
  {
    SweptIsSmaller(s, now);
  }

  lemma SweptIsSmaller(s: Table, now: int)
    ensures |Swept(s, now)| <= |s|
  {
    assert Swept(s, now).Keys <= s.Keys;
    SubsetSmaller(Swept(s, now).Keys, s.Keys);
  }

  lemma SubsetSmaller<T>(a: set<T>, b: set<T>)
    requires a <= b
    ensures |a| <= |b|
  {
    assert b == a + (b - a);
  }

  lemma {:induction false} RunBounded(s: Table, calls: seq<Call>, limit: int)
    requires limit >= 1 && |s| <= 5000
    ensures |Run(s, calls, limit)| <= 5000
    decreases calls
  {
    if calls != [] {
      StepBounded(s, calls[0].ip, calls[0].at, limit);
      RunBounded(After(s, calls[0].ip, calls[0].at, limit), calls[1..], limit);
    }
  }

  function Name(n: nat): (a: Address)
    ensures |a| == n
  {
    seq(n, i => 'x')
  }

  /** Calls from the distinct addresses Name(m), ..., Name(n - 1). */
  function Flood(m: nat, n: nat): seq<Call>
    requires m <= n
    decreases n - m
  {
    if m == n then [] else [Call(Name(m), 0)] + Flood(m + 1, n)
  }

  /** With a limit of zero the refusal itself writes an empty entry, so distinct
      addresses grow the table one by one. */
  lemma {:induction false} FloodGrows(s: Table, m: nat, n: nat, limit: int)
    requires limit <= 0 && m <= n && |s| == m && forall k :: k in s ==> |k| < m
    ensures |Run(s, Flood(m, n), limit)| == n
    decreases n - m
  {
    if m < n {
      hide After, Name, Flood;
      FloodSplit(m, n);
      RefusalWrites(s, Name(m), limit);
      assert |Name(m)| == m;
      AddedIsLarger(s.Keys, Name(m));
      FloodGrows(After(s, Name(m), 0, limit), m + 1, n, limit);
    }
  }

  lemma FloodSplit(m: nat, n: nat)
    requires m < n
    ensures var calls := Flood(m, n);
      calls != [] && calls[0] == Call(Name(m), 0) && calls[1..] == Flood(m + 1, n)
  {
  }

  lemma RefusalWrites(s: Table, ip: Address, limit: int)
    requires limit <= 0
    ensures After(s, ip, 0, limit).Keys == s.Keys + {ip}
  {
  }

  lemma AddedIsLarger<T>(a: set<T>, x: T)
    requires x !in a
    ensures |a + {x}| == |a| + 1
  {
  }

  /** The table stays within 5000 addresses in every run exactly when the limit is at
      least one. */
  lemma BoundedIffLimitPositive(limit: int)
    ensures (forall calls: seq<Call> :: |Run(map[], calls, limit)| <= 5000) <==> limit >= 1
  {
    if limit >= 1 {
      forall calls: seq<Call> ensures |Run(map[], calls, limit)| <= 5000 {
        RunBounded(map[], calls, limit);
      }
    } else {
      FloodGrows(map[], 0, MAX_TRACKED + 1, limit);
    }
  }
}
