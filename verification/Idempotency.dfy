/** `replay_or_run` of app/distribution/idempotency.py, run by any number of
    clients whose database statements interleave in any order. */
module Idempotency {
  import opened Outcomes

  type Client = nat
  type Key = string
  type Id = nat
  type Summary = string

  /** One claim; the table is indexed by its unique key column. */
  datatype Row = Row(id: Id, response: Option<Summary>)

  type Rows = map<Key, Row>

  datatype Reply = Fresh(summary: Summary) | Replayed(summary: Summary) | InProgress | Failed | Broken

  /** Where a request stands between two of its statements. */
  datatype Pc =
    | Conflicted(key: Key)                          // the insert hit the unique key; rolled back
    | Running(key: Key, id: Id)                     // claimed; run_fn is executing
    | Returned(key: Key, id: Id, summary: Summary)  // run_fn came back, not stored yet
    | Raised(key: Key, id: Id)                      // run_fn raised; rolled back

  datatype Event =
    | Started(client: Client, key: Key)
    | Stored(client: Client, key: Key, summary: Summary)
    | Replied(client: Client, key: Key, reply: Reply)

  /** `log` is everything that has happened, in order. */
  datatype State = State(rows: Rows, pcs: map<Client, Pc>, log: seq<Event>)

  const INITIAL := State(map[], map[], [])

  datatype Action =
    | Claim(client: Client, key: Key, id: Id)     // insert and commit; id is the row's new id
    | Read(client: Client)                        // look up the row that holds the key
    | Return(client: Client, summary: Summary)    // run_fn returns
    | Raise(client: Client)                       // run_fn raises
    | Store(client: Client)                       // write the response and commit
    | Release(client: Client)                     // delete the claim and commit
    | Crash(client: Client)                       // the process dies here

  /** The row id is the primary key: no two rows share one. */
  ghost predicate FreshId(rows: Rows, id: Id) { forall k :: k in rows ==> rows[k].id != id }

  /** `db.session.get(IdempotencyKey, id)`: the row is found by its id. */
  predicate Owns(rows: Rows, key: Key, id: Id) { key in rows && rows[key].id == id }

  ghost predicate Enabled(st: State, a: Action) {
    match a
    case Claim(c, key, id) => c !in st.pcs && key != "" && FreshId(st.rows, id)
    case Read(c) => c in st.pcs && st.pcs[c].Conflicted?
    case Return(c, _) => c in st.pcs && st.pcs[c].Running?
    case Raise(c) => c in st.pcs && st.pcs[c].Running?
    case Store(c) => c in st.pcs && st.pcs[c].Returned?
    case Release(c) => c in st.pcs && st.pcs[c].Raised?
    case Crash(c) => c in st.pcs
  }

  ghost function RowsAfter(st: State, a: Action): Rows
    requires Enabled(st, a)
  {
    match a
    case Claim(_, key, id) => if key in st.rows then st.rows else st.rows[key := Row(id, None)]
    case Store(c) =>
      var Returned(key, id, summary) := st.pcs[c];
      if Owns(st.rows, key, id) then st.rows[key := Row(id, Some(summary))] else st.rows
    case Release(c) =>
      var Raised(key, id) := st.pcs[c];
      if Owns(st.rows, key, id) then st.rows - {key} else st.rows
    case _ => st.rows
  }

  ghost function PcsAfter(st: State, a: Action): map<Client, Pc>
    requires Enabled(st, a)
  {
    match a
    case Claim(c, key, id) => st.pcs[c := if key in st.rows then Conflicted(key) else Running(key, id)]
    case Return(c, summary) => st.pcs[c := Returned(st.pcs[c].key, st.pcs[c].id, summary)]
    case Raise(c) => st.pcs[c := Raised(st.pcs[c].key, st.pcs[c].id)]
    case _ => st.pcs - {a.client}
  }

  /** What a step adds to the history. */
  ghost function News(st: State, a: Action): seq<Event>
    requires Enabled(st, a)
  {
    match a
    case Claim(c, key, _) => if key in st.rows then [] else [Started(c, key)]
    case Read(c) =>
      var key := st.pcs[c].key;
      if key in st.rows && st.rows[key].response.Some?
      then [Replied(c, key, Replayed(st.rows[key].response.value))]
      else [Replied(c, key, InProgress)]
    case Store(c) =>
      var Returned(key, id, summary) := st.pcs[c];
      if Owns(st.rows, key, id) then [Stored(c, key, summary), Replied(c, key, Fresh(summary))]
      else [Replied(c, key, Broken)]
    case Release(c) => [Replied(c, st.pcs[c].key, Failed)]
    case _ => []
  }

  ghost function Step(st: State, a: Action): State
    requires Enabled(st, a)
  {
    State(RowsAfter(st, a), PcsAfter(st, a), st.log + News(st, a))
  }

  /** Every interleaving: any enabled steps, by any clients, in any order. */
  ghost predicate Possible(st: State, actions: seq<Action>)
    decreases actions
  {
    actions == [] || (Enabled(st, actions[0]) && Possible(Step(st, actions[0]), actions[1..]))
  }

  ghost function Exec(st: State, actions: seq<Action>): State
    requires Possible(st, actions)
    decreases actions
  {
    if actions == [] then st else Exec(Step(st, actions[0]), actions[1..])
  }

  // -------------------------------------------------------------------- invariant

  /** The client holds a claim on the key that nobody has answered yet. */
  predicate Working(pc: Pc) { !pc.Conflicted? }

  ghost predicate ClaimsHeld(st: State) {
    forall c :: c in st.pcs && Working(st.pcs[c]) ==>
      Owns(st.rows, st.pcs[c].key, st.pcs[c].id) && st.rows[st.pcs[c].key].response.None?
  }

  ghost predicate OneWorker(st: State) {
    forall c, d | c in st.pcs && d in st.pcs && Working(st.pcs[c]) && Working(st.pcs[d]) ::
      st.pcs[c].key == st.pcs[d].key ==> c == d
  }

  ghost predicate RowSays(rows: Rows, key: Key, summary: Summary) {
    key in rows && rows[key].response == Some(summary)
  }

  /** The row vouches for the event: a stored summary is on it, and a definite
      answer is what it says. */
  ghost predicate Vouched(rows: Rows, e: Event) {
    match e
    case Started(_, _) => true
    case Stored(_, key, summary) => RowSays(rows, key, summary)
    case Replied(_, key, Fresh(summary)) => RowSays(rows, key, summary)
    case Replied(_, key, Replayed(summary)) => RowSays(rows, key, summary)
    case Replied(_, _, Broken) => false
    case Replied(_, _, _) => true
  }

  ghost predicate AllVouched(rows: Rows, log: seq<Event>) { forall e :: e in log ==> Vouched(rows, e) }

  /** After a summary is stored, run_fn neither starts nor stores again for that key. */
  ghost predicate StoreIsFinal(log: seq<Event>) {
    forall i, j :: 0 <= i < j < |log| && log[i].Stored? && !log[j].Replied? ==> log[i].key != log[j].key
  }

  ghost predicate RecordedWasStored(rows: Rows, log: seq<Event>) {
    forall k :: k in rows && rows[k].response.Some? ==>
      exists c :: Stored(c, k, rows[k].response.value) in log
  }

  ghost predicate Inv(st: State) {
    && ClaimsHeld(st) && OneWorker(st)
    && AllVouched(st.rows, st.log) && StoreIsFinal(st.log) && RecordedWasStored(st.rows, st.log)
  }

  /** A step only appends to the history, never disturbs a recorded response, and
      is vouched for by the rows it leaves. */
  lemma StepFacts(st: State, a: Action)
    requires Inv(st) && Enabled(st, a)
    ensures Step(st, a).log == st.log + News(st, a)
    ensures forall k :: k in st.rows && st.rows[k].response.Some? ==>
              k in Step(st, a).rows && Step(st, a).rows[k] == st.rows[k]
    ensures forall e :: e in News(st, a) ==> Vouched(Step(st, a).rows, e)
    ensures |News(st, a)| <= 2 && (|News(st, a)| == 2 ==> News(st, a)[1].Replied?)
    ensures forall e :: e in News(st, a) && !e.Replied? ==> e.key in st.rows ==> st.rows[e.key].response.None?
    ensures forall k | k in Step(st, a).rows && Step(st, a).rows[k].response.Some? ::
              (k in st.rows && st.rows[k] == Step(st, a).rows[k])
              || Stored(a.client, k, Step(st, a).rows[k].response.value) in News(st, a)
  {
  }

  lemma StepKeepsClaims(st: State, a: Action)
    requires ClaimsHeld(st) && OneWorker(st) && Enabled(st, a)
    ensures ClaimsHeld(Step(st, a)) && OneWorker(Step(st, a))
  {
  }

  lemma StepKeepsHistory(st: State, a: Action)
    requires Inv(st) && Enabled(st, a)
    ensures AllVouched(Step(st, a).rows, Step(st, a).log) && StoreIsFinal(Step(st, a).log)
  {
    hide Step, Enabled, News;
    StepFacts(st, a);
    var log: seq<Event>, news: seq<Event> := st.log, News(st, a);
    var all: seq<Event> := log + news;
    forall i, j | 0 <= i < j < |all| && all[i].Stored? && !all[j].Replied?
      ensures all[i].key != all[j].key
    {
      if j >= |log| {
        assert all[j] in news;
        if i < |log| {
          assert log[i] in log && Vouched(st.rows, log[i]);
        }
      }
    }
  }

  lemma StepKeepsRecorded(st: State, a: Action)
    requires Inv(st) && Enabled(st, a)
    ensures RecordedWasStored(Step(st, a).rows, Step(st, a).log)
  {
    hide Step, Enabled, News;
    StepFacts(st, a);
    var t := Step(st, a);
    forall k | k in t.rows && t.rows[k].response.Some?
      ensures exists c :: Stored(c, k, t.rows[k].response.value) in t.log
    {
      if k in st.rows && st.rows[k] == t.rows[k] {
        var c :| Stored(c, k, st.rows[k].response.value) in st.log;
      }
    }
  }

  lemma {:induction false} AlwaysInv(st: State, actions: seq<Action>)
    requires Inv(st) && Possible(st, actions)
    ensures Inv(Exec(st, actions))
    decreases actions
  {
    if actions != [] {
      StepKeepsClaims(st, actions[0]);
      StepKeepsHistory(st, actions[0]);
      StepKeepsRecorded(st, actions[0]);
      AlwaysInv(Step(st, actions[0]), actions[1..]);
    }
  }

  // ---------------------------------------------------------------- what is promised

  /** run_fn is never executing twice at once for one key. */
  lemma NeverTwiceAtOnce(actions: seq<Action>, c: Client, d: Client)
    requires Possible(INITIAL, actions)
    requires var st := Exec(INITIAL, actions);
      c in st.pcs && d in st.pcs && st.pcs[c].Running? && st.pcs[d].Running? && st.pcs[c].key == st.pcs[d].key
    ensures c == d
  {
    AlwaysInv(INITIAL, actions);
  }

  /** At most one summary is ever stored for a key, and run_fn does not start again after it. */
  lemma StoredAtMostOnce(actions: seq<Action>, i: nat, j: nat)
    requires Possible(INITIAL, actions)
    requires var log := Exec(INITIAL, actions).log;
      i < j < |log| && log[i].Stored? && (log[j].Stored? || log[j].Started?)
    ensures Exec(INITIAL, actions).log[i].key != Exec(INITIAL, actions).log[j].key
  {
    AlwaysInv(INITIAL, actions);
  }

  /** Every answer that carries a summary carries the stored one; so two such
      answers for one key agree, whoever got them and when. */
  lemma AnswersAreTheStoredSummary(actions: seq<Action>, i: nat)
    requires Possible(INITIAL, actions)
    requires var log := Exec(INITIAL, actions).log;
      i < |log| && log[i].Replied? && (log[i].reply.Fresh? || log[i].reply.Replayed?)
    ensures var log := Exec(INITIAL, actions).log;
      && (exists c :: Stored(c, log[i].key, log[i].reply.summary) in log)
      && (forall e :: e in log && e.Stored? && e.key == log[i].key ==> e.summary == log[i].reply.summary)
  {
    AlwaysInv(INITIAL, actions);
    var st := Exec(INITIAL, actions);
    assert st.log[i] in st.log && Vouched(st.rows, st.log[i]);
    assert RowSays(st.rows, st.log[i].key, st.log[i].reply.summary);
    var c :| Stored(c, st.log[i].key, st.rows[st.log[i].key].response.value) in st.log;
    forall e | e in st.log && e.Stored? && e.key == st.log[i].key ensures e.summary == st.log[i].reply.summary {
      assert Vouched(st.rows, e);
    }
  }

  /** The final store always finds its claim: no run is lost to a vanished row. */
  lemma StoreFindsItsClaim(actions: seq<Action>, c: Client)
    requires Possible(INITIAL, actions)
    requires c in Exec(INITIAL, actions).pcs && Exec(INITIAL, actions).pcs[c].Returned?
    ensures var st, pc := Exec(INITIAL, actions), Exec(INITIAL, actions).pcs[c];
      RowSays(Step(st, Store(c)).rows, pc.key, pc.summary)
      && Step(st, Store(c)).log == st.log + [Stored(c, pc.key, pc.summary), Replied(c, pc.key, Fresh(pc.summary))]
  {
    AlwaysInv(INITIAL, actions);
  }

  /** A run that raises frees the key: the next claim, by anyone, starts run_fn. */
  lemma FailureFreesTheKey(actions: seq<Action>, c: Client, d: Client, id: Id)
    requires Possible(INITIAL, actions)
    requires c in Exec(INITIAL, actions).pcs && Exec(INITIAL, actions).pcs[c].Raised?
    requires Enabled(Step(Exec(INITIAL, actions), Release(c)), Claim(d, Exec(INITIAL, actions).pcs[c].key, id))
    ensures var st, key := Exec(INITIAL, actions), Exec(INITIAL, actions).pcs[c].key;
      && key !in Step(st, Release(c)).rows
      && Step(Step(st, Release(c)), Claim(d, key, id)).pcs[d] == Running(key, id)
  {
    AlwaysInv(INITIAL, actions);
  }

  // ------------------------------------------------------------------ abandoned claims

  /** The key is claimed, unanswered, and nobody is working on it. */
  ghost predicate Abandoned(st: State, key: Key) {
    && key in st.rows && st.rows[key].response.None?
    && forall c :: c in st.pcs && Working(st.pcs[c]) ==> st.pcs[c].key != key
  }

  /** A process that dies between claiming and storing leaves such a key. */
  lemma CrashAbandons(st: State, c: Client)
    requires Inv(st) && c in st.pcs && Working(st.pcs[c])
    ensures Abandoned(Step(st, Crash(c)), st.pcs[c].key)
  {
  }

  /** And such a key stays that way in every continuation: run_fn never starts for
      it again and every answer is "in progress". */
  lemma {:induction false} AbandonedForever(st: State, actions: seq<Action>, key: Key)
    requires Inv(st) && Abandoned(st, key) && Possible(st, actions)
    ensures Abandoned(Exec(st, actions), key)
    ensures st.log <= Exec(st, actions).log
    ensures forall i | |st.log| <= i < |Exec(st, actions).log| ::
              var e := Exec(st, actions).log[i]; e.key == key ==> e.Replied? && e.reply.InProgress?
    decreases actions
  {
    if actions != [] {
      var a := actions[0];
      AbandonedStep(st, a, key);
      StepKeepsClaims(st, a);
      StepKeepsHistory(st, a);
      StepKeepsRecorded(st, a);
      StepFacts(st, a);
      AbandonedForever(Step(st, a), actions[1..], key);
    }
  }

  lemma AbandonedStep(st: State, a: Action, key: Key)
    requires Inv(st) && Abandoned(st, key) && Enabled(st, a)
    ensures Abandoned(Step(st, a), key)
    ensures forall e :: e in News(st, a) && e.key == key ==> e.Replied? && e.reply.InProgress?
  {
  }

  lemma ExecCons(st: State, a: Action, rest: seq<Action>)
    requires Enabled(st, a) && Possible(Step(st, a), rest)
    ensures Possible(st, [a] + rest) && Exec(st, [a] + rest) == Exec(Step(st, a), rest)
  {
    assert ([a] + rest)[0] == a && ([a] + rest)[1..] == rest;
  }

  // ------------------------------------------------------------- who can be answered

  predicate IsAnswer(e: Event, key: Key) {
    e.Replied? && e.key == key && (e.reply.Fresh? || e.reply.Replayed?)
  }

  /** Some way to go on gives somebody a summary for the key. */
  ghost predicate CanAnswer(st: State, key: Key) {
    exists actions, i | Possible(st, actions) && |st.log| <= i < |Exec(st, actions).log| ::
      IsAnswer(Exec(st, actions).log[i], key)
  }

  lemma AnswersAt(st: State, a: Action, key: Key, i: nat)
    requires Enabled(st, a) && i < |News(st, a)| && IsAnswer(News(st, a)[i], key)
    ensures CanAnswer(st, key)
  {
    hide Enabled, News;
    assert Possible(Step(st, a), []);
    ExecCons(st, a, []);
    assert Exec(st, [a] + []).log == st.log + News(st, a);
    assert IsAnswer(Exec(st, [a] + []).log[|st.log| + i], key);
  }

  /** What can be answered after a step could be answered before it. */
  lemma AnswersLater(st: State, a: Action, key: Key)
    requires Enabled(st, a) && CanAnswer(Step(st, a), key)
    ensures CanAnswer(st, key)
  {
    hide Enabled, News, IsAnswer;
    var t := Step(st, a);
    var actions, i :| Possible(t, actions) && |t.log| <= i < |Exec(t, actions).log|
                      && IsAnswer(Exec(t, actions).log[i], key);
    ExecCons(st, a, actions);
    assert IsAnswer(Exec(st, [a] + actions).log[i], key);
  }

  lemma {:induction false} Unused(s: set<nat>) returns (n: nat)
    ensures n !in s && forall x :: x in s ==> x < n
  {
    if s == {} {
      n := 0;
    } else {
      var y :| y in s;
      var m := Unused(s - {y});
      n := if y < m then m else y + 1;
      assert forall x :: x in s ==> x == y || x in s - {y};
    }
  }

  lemma FreshIdExists(rows: Rows) returns (id: Id)
    ensures FreshId(rows, id)
  {
    id := Unused(set k | k in rows :: rows[k].id);
  }

  lemma FreeKeyAnswers(st: State, key: Key)
    requires key != "" && key !in st.rows
    ensures CanAnswer(st, key)
  {
    var c := Unused(st.pcs.Keys);
    var id := FreshIdExists(st.rows);
    var s1 := Step(st, Claim(c, key, id));
    var s2 := Step(s1, Return(c, ""));
    assert s2.pcs[c] == Returned(key, id, "") && Owns(s2.rows, key, id);
    assert News(s2, Store(c))[1] == Replied(c, key, Fresh(""));
    AnswersAt(s2, Store(c), key, 1);
    AnswersLater(s1, Return(c, ""), key);
    AnswersLater(st, Claim(c, key, id), key);
  }

  lemma RecordedKeyAnswers(st: State, key: Key)
    requires key != "" && key in st.rows && st.rows[key].response.Some?
    ensures CanAnswer(st, key)
  {
    var c := Unused(st.pcs.Keys);
    var id := FreshIdExists(st.rows);
    var s1 := Step(st, Claim(c, key, id));
    assert s1.pcs[c] == Conflicted(key) && s1.rows == st.rows;
    assert News(s1, Read(c)) == [Replied(c, key, Replayed(st.rows[key].response.value))];
    AnswersAt(s1, Read(c), key, 0);
    AnswersLater(st, Claim(c, key, id), key);
  }

  lemma ReturnedAnswers(st: State, c: Client)
    requires ClaimsHeld(st) && c in st.pcs && st.pcs[c].Returned?
    ensures CanAnswer(st, st.pcs[c].key)
  {
    AnswersAt(st, Store(c), st.pcs[c].key, 1);
  }

  lemma WorkerAnswers(st: State, c: Client)
    requires ClaimsHeld(st) && OneWorker(st) && c in st.pcs && Working(st.pcs[c]) && st.pcs[c].key != ""
    ensures CanAnswer(st, st.pcs[c].key)
  {
    hide CanAnswer;
    match st.pcs[c] {
      case Running(key, id) =>
        StepKeepsClaims(st, Return(c, ""));
        ReturnedAnswers(Step(st, Return(c, "")), c);
        AnswersLater(st, Return(c, ""), key);
      case Returned(_, _, _) =>
        ReturnedAnswers(st, c);
      case Raised(key, id) =>
        FreeKeyAnswers(Step(st, Release(c)), key);
        AnswersLater(st, Release(c), key);
    }
  }

  /** A key can still be answered exactly while it is not abandoned. */
  lemma CanAnswerIffNotAbandoned(st: State, key: Key)
    requires Inv(st) && key != ""
    ensures CanAnswer(st, key) <==> !Abandoned(st, key)
  {
    if Abandoned(st, key) {
      forall actions, i | Possible(st, actions) && |st.log| <= i < |Exec(st, actions).log|
        ensures !IsAnswer(Exec(st, actions).log[i], key)
      {
        AbandonedForever(st, actions, key);
      }
    } else {
      hide CanAnswer;
      if key !in st.rows {
        FreeKeyAnswers(st, key);
      } else if st.rows[key].response.Some? {
        RecordedKeyAnswers(st, key);
      } else {
        var c :| c in st.pcs && Working(st.pcs[c]) && st.pcs[c].key == key;
        WorkerAnswers(st, c);
      }
    }
  }

  /** Two steps from the start reach an abandoned key. */
  lemma AbandonedIsReachable(c: Client, key: Key, id: Id)
    requires key != ""
    ensures Possible(INITIAL, [Claim(c, key, id), Crash(c)])
    ensures Abandoned(Exec(INITIAL, [Claim(c, key, id), Crash(c)]), key)
  {
    var s1 := Step(INITIAL, Claim(c, key, id));
    ExecCons(s1, Crash(c), []);
    ExecCons(INITIAL, Claim(c, key, id), [Crash(c)]);
    assert [Crash(c)] + [] == [Crash(c)];
    assert [Claim(c, key, id)] + [Crash(c)] == [Claim(c, key, id), Crash(c)];
  }

  // --------------------------------------------------------------------- one request

  /** How run_fn ends. */
  datatype Outcome = Summarises(summary: Summary) | Raises

  /** The statements of one undisturbed request. */
  function Request(c: Client, key: Key, id: Id, outcome: Outcome, free: bool): seq<Action> {
    if !free then [Claim(c, key, id), Read(c)]
    else if outcome.Summarises? then [Claim(c, key, id), Return(c, outcome.summary), Store(c)]
    else [Claim(c, key, id), Raise(c), Release(c)]
  }

  class Service {
    var rows: Rows

    constructor ()
      ensures rows == map[]
    {
      rows := map[];
    }

    /** `replay_or_run` without interference; `id` is the id the database assigns. */
    method ReplayOrRun(key: Key, outcome: Outcome, id: Id) returns (reply: Reply, ran: bool)
      requires FreshId(rows, id)
      modifies this
      ensures key == "" ==> rows == old(rows) && ran
      ensures key != "" ==> ran == (key !in old(rows))
      ensures key != "" && key in old(rows) && old(rows)[key].response.Some? ==>
                reply == Replayed(old(rows)[key].response.value)
      ensures key != "" && key in old(rows) && old(rows)[key].response.None? ==> reply == InProgress
      ensures ran ==> reply == (if outcome.Summarises? then Fresh(outcome.summary) else Failed)
      ensures rows == if ran && key != "" && outcome.Summarises?
                      then old(rows)[key := Row(id, Some(outcome.summary))] else old(rows)
    {
      if key == "" {
        return (if outcome.Summarises? then Fresh(outcome.summary) else Failed), true;
      }
      if key in rows {
        var existing := rows[key];
        return (if existing.response.Some? then Replayed(existing.response.value) else InProgress), false;
      }
      rows := rows[key := Row(id, None)];
      if outcome.Raises? {
        rows := rows - {key};
        return Failed, true;
      }
      rows := rows[key := rows[key].(response := Some(outcome.summary))];
      return Fresh(outcome.summary), true;
    }
  }

  /** Those are the steps of the machine, taken in a row by one client. */
  lemma RequestIsSteps(rows: Rows, c: Client, key: Key, id: Id, outcome: Outcome)
    requires FreshId(rows, id) && key != ""
    ensures var st, steps := State(rows, map[], []), Request(c, key, id, outcome, key !in rows);
      && Possible(st, steps)
      && Exec(st, steps).pcs == map[]
      && Exec(st, steps).rows ==
           (if key !in rows && outcome.Summarises? then rows[key := Row(id, Some(outcome.summary))] else rows)
      && Exec(st, steps).log != []
      && Exec(st, steps).log[|Exec(st, steps).log| - 1] ==
           Replied(c, key,
                   if key !in rows then (if outcome.Summarises? then Fresh(outcome.summary) else Failed)
                   else if rows[key].response.Some? then Replayed(rows[key].response.value) else InProgress)
  {
    hide Enabled, Step;
    if key in rows {
      AnsweredInSteps(rows, c, key, id, outcome);
    } else {
      WorkedInSteps(rows, c, key, id, outcome);
    }
  }

  lemma AnsweredInSteps(rows: Rows, c: Client, key: Key, id: Id, outcome: Outcome)
    requires FreshId(rows, id) && key != "" && key in rows
    ensures var st, steps := State(rows, map[], []), Request(c, key, id, outcome, false);
      && Possible(st, steps) && Exec(st, steps).pcs == map[] && Exec(st, steps).rows == rows
      && Exec(st, steps).log ==
           [Replied(c, key, if rows[key].response.Some? then Replayed(rows[key].response.value) else InProgress)]
  {
    var st, steps := State(rows, map[], []), Request(c, key, id, outcome, false);
    var s1 := Step(st, steps[0]);
    ExecCons(s1, steps[1], []);
    ExecCons(st, steps[0], [steps[1]]);
    assert steps == [steps[0]] + ([steps[1]] + []);
  }

  lemma WorkedInSteps(rows: Rows, c: Client, key: Key, id: Id, outcome: Outcome)
    requires FreshId(rows, id) && key != "" && key !in rows
    ensures var st, steps := State(rows, map[], []), Request(c, key, id, outcome, true);
      && Possible(st, steps)
      && Exec(st, steps).pcs == map[]
      && Exec(st, steps).rows ==
           (if outcome.Summarises? then rows[key := Row(id, Some(outcome.summary))] else rows)
      && Exec(st, steps).log != []
      && Exec(st, steps).log[|Exec(st, steps).log| - 1] ==
           Replied(c, key, if outcome.Summarises? then Fresh(outcome.summary) else Failed)
  {
    var st, steps := State(rows, map[], []), Request(c, key, id, outcome, true);
    var s1 := Step(st, steps[0]);
    var s2 := Step(s1, steps[1]);
    ExecCons(s2, steps[2], []);
    ExecCons(s1, steps[1], [steps[2]]);
    ExecCons(st, steps[0], [steps[1], steps[2]]);
    assert [steps[1], steps[2]] == [steps[1]] + [steps[2]];
    assert steps == [steps[0]] + [steps[1], steps[2]];
  }
}
