/** Receipt rows against stored objects (app/receipts.py, app/client/expenses.py): a table
    that commits or rolls back beside a store that does neither. */
module Receipts {
  import opened Outcomes

  type ExpenseId = nat
  type Key = string
  type Bytes = seq<bv8>

  /** The committed receipt rows, one per expense at most, and the objects in storage. */
  datatype State = State(rows: map<ExpenseId, Key>, store: map<Key, Bytes>)

  /** How saving an object ended: written whole, or failed leaving nothing or a fragment. */
  datatype Saved = Written | Broken(left: Option<Bytes>)

  /** Where a request may fail: the upload is refused, the object is not written, the
      deletion of the old row is not flushed, the old object is not deleted (which the code
      only logs), the transaction is not committed. */
  datatype Faults = Faults(valid: bool, saved: Saved, flushed: bool, deleted: bool, committed: bool)

  datatype Request =
    | Upload(expense: ExpenseId, key: Key, bytes: Bytes)   // add or edit an expense, with a file
    | Remove(expense: ExpenseId)                           // delete the receipt, or the expense

  /** The state after a request that met with the faults. */
  function Apply(s: State, request: Request, f: Faults): State {
    match request
    case Upload(e, key, bytes) =>
      if !f.valid then s
      else if f.saved.Broken? then
        s.(store := if f.saved.left.Some? then s.store[key := f.saved.left.value] else s.store)
      else if e in s.rows && !f.flushed then s.(store := s.store[key := bytes])
      else
        var store := s.store[key := bytes];
        State(if f.committed then s.rows[e := key] else s.rows,
              if e in s.rows && f.deleted then store - {s.rows[e]} else store)
    case Remove(e) =>
      if e !in s.rows || !f.flushed then s
      else
        State(if f.committed then s.rows - {e} else s.rows,
              if f.deleted then s.store - {s.rows[e]} else s.store)
  }

  /** The session of one request over the committed rows, and the store. */
  class Desk {
    var committed: map<ExpenseId, Key>
    var session: map<ExpenseId, Key>
    var store: map<Key, Bytes>

    constructor ()
      ensures Now() == State(map[], map[]) && session == committed
    {
      committed, session, store := map[], map[], map[];
    }

    function Now(): State
      reads this
    {
      State(committed, store)
    }

    method Save(key: Key, bytes: Bytes, saved: Saved) returns (ok: bool)
      modifies this`store
      ensures ok == saved.Written?
      ensures store == if ok then old(store)[key := bytes]
                       else if saved.left.Some? then old(store)[key := saved.left.value] else old(store)
    {
      ok := saved.Written?;
      if ok {
        store := store[key := bytes];
      } else if saved.left.Some? {
        store := store[key := saved.left.value];
      }
    }

    /** `storage.delete`, whose failure the callers log and go on from. */
    method Delete(key: Key, works: bool)
      modifies this`store
      ensures store == if works then old(store) - {key} else old(store)
    {
      if works {
        store := store - {key};
      }
    }

    /** `attach_receipt`: the new object first, then the old row, the old object, the new
        row. Reports whether it got to the end. */
    method Attach(e: ExpenseId, key: Key, bytes: Bytes, f: Faults) returns (ok: bool)
      requires session == committed
      modifies this`session, this`store
      ensures ok == (f.valid && f.saved.Written? && (e in old(session) ==> f.flushed))
      ensures ok ==> session == old(session)[e := key]
      ensures store == Apply(old(Now()), Upload(e, key, bytes), f).store
    {
      if !f.valid {
        return false;
      }
      ok := Save(key, bytes, f.saved);
      if !ok {
        return;
      }
      if e in session {
        var previous := session[e];
        session := session - {e};
        if !f.flushed {
          return false;
        }
        Delete(previous, f.deleted);
      }
      session := session[e := key];
    }

    /** `detach_receipt`: None when there was nothing attached. */
    method Detach(e: ExpenseId, f: Faults) returns (name: Option<Key>, ok: bool)
      requires session == committed
      modifies this`session, this`store
      ensures name == if e in old(session) then Some(old(session)[e]) else None
      ensures ok == (e in old(session) ==> f.flushed)
      ensures session == old(session) - {e}
      ensures store == Apply(old(Now()), Remove(e), f).store
    {
      if e !in session {
        return None, true;
      }
      name := Some(session[e]);
      session := session - {e};
      ok := f.flushed;
      if ok {
        Delete(name.value, f.deleted);
      }
    }

    method CommitOrRollBack(ok: bool)
      modifies this`session, this`committed
      ensures committed == (if ok then old(session) else old(committed)) && session == committed
    {
      if ok {
        committed := session;
      } else {
        session := committed;
      }
    }

    /** One request from start to finish. */
    method Handle(request: Request, f: Faults)
      requires session == committed
      modifies this
      ensures session == committed && Now() == Apply(old(Now()), request, f)
    {
      match request {
        case Upload(e, key, bytes) =>
          var ok := Attach(e, key, bytes, f);
          CommitOrRollBack(ok && f.committed);
        case Remove(e) =>
          var name, ok := Detach(e, f);
          if name.Some? {
            CommitOrRollBack(ok && f.committed);
          } else {
            CommitOrRollBack(false);
          }
      }
    }
  }

  // -------------------------------------------------------------------- every row's object

  /** Every committed row's object is there, and no two rows share one. */
  ghost predicate Sound(s: State) {
    && (forall e :: e in s.rows ==> s.rows[e] in s.store)
    && (forall d, e :: d in s.rows && e in s.rows && s.rows[d] == s.rows[e] ==> d == e)
  }

  /** Keys are freshly made: used by no row and no object. */
  ghost predicate Enabled(s: State, request: Request) {
    request.Upload? ==> request.key !in s.store && request.key !in s.rows.Values
  }

  /** The request deleted an object whose row came back with the rollback. */
  predicate Undermines(s: State, request: Request, f: Faults) {
    && request.expense in s.rows && f.flushed && f.deleted && !f.committed
    && (request.Upload? ==> f.valid && f.saved.Written?)
  }

  /** A request keeps every row's object exactly unless it undermines one. */
  lemma SoundIffNotUndermined(s: State, request: Request, f: Faults)
    requires Sound(s) && Enabled(s, request)
    ensures Sound(Apply(s, request, f)) <==> !Undermines(s, request, f)
  {
    var t := Apply(s, request, f);
    if Undermines(s, request, f) {
      assert s.rows[request.expense] !in t.store;
    } else {
      NewKeyIsNobodys(s, request);
    }
  }

  lemma NewKeyIsNobodys(s: State, request: Request)
    requires Enabled(s, request)
    ensures request.Upload? ==> forall e :: e in s.rows ==> s.rows[e] != request.key
  {
  }

  /** What a caller can tell beforehand: a request is safe whatever fails exactly if its
      expense has no receipt yet. */
  lemma SafeWhateverFailsIffFirst(s: State, request: Request)
    requires Sound(s) && Enabled(s, request)
    ensures (forall f :: Sound(Apply(s, request, f))) <==> request.expense !in s.rows
  {
    hide Sound, Apply, Enabled;
    if request.expense in s.rows {
      var f := Faults(true, Written, true, true, false);
      SoundIffNotUndermined(s, request, f);
      assert !Sound(Apply(s, request, f));
    } else {
      forall f ensures Sound(Apply(s, request, f)) {
        SoundIffNotUndermined(s, request, f);
      }
    }
  }

  /** The request goes through: nothing fails on the way to its commit. */
  predicate GoesThrough(s: State, request: Request, f: Faults) {
    match request
    case Upload(e, _, _) => f.valid && f.saved == Written && (e !in s.rows || f.flushed) && f.committed
    case Remove(e) => e in s.rows && f.flushed && f.committed
  }

  /** The rows change exactly if the request goes through, and a refused upload, or a removal
      of nothing, leaves storage alone as well. */
  lemma RowsChangeIff(s: State, request: Request, f: Faults)
    requires Enabled(s, request)
    ensures var t := Apply(s, request, f);
      && (t.rows != s.rows <==> GoesThrough(s, request, f))
      && (GoesThrough(s, request, f) ==>
            t.rows == if request.Upload? then s.rows[request.expense := request.key] else s.rows - {request.expense})
      && ((request.Upload? && !f.valid) || (request.Remove? && request.expense !in s.rows) ==> t == s)
  {
    if GoesThrough(s, request, f) && request.Upload? {
      NewKeyIsNobodys(s, request);
      assert Apply(s, request, f).rows[request.expense] == request.key;
    }
  }

  /** What a request leaves in storage: the new object, or the fragment of it that was
      written; the old one unless it was deleted, which comes after the new one is whole and
      the old row is flushed; and every other object as it was. */
  lemma ObjectsLeft(s: State, request: Request, f: Faults, key: Key)
    requires Sound(s) && Enabled(s, request)
    ensures var t := Apply(s, request, f);
      if request.Upload? && key == request.key then
        && (key in t.store <==> f.valid && (f.saved.Written? || f.saved.left.Some?))
        && (key in t.store ==> t.store[key] == if f.saved.Written? then request.bytes else f.saved.left.value)
      else if request.expense in s.rows && key == s.rows[request.expense] then
        && (key !in t.store <==> f.flushed && f.deleted && (request.Upload? ==> f.valid && f.saved.Written?))
        && (key in t.store ==> t.store[key] == s.store[key])
      else (key in t.store <==> key in s.store) && (key in t.store ==> t.store[key] == s.store[key])
  {
    NewKeyIsNobodys(s, request);
  }

  /** A committed upload reads back whole, and nobody else's receipt changes. */
  lemma CommittedUploadReadsBack(s: State, request: Request, f: Faults, other: ExpenseId)
    requires Sound(s) && Enabled(s, request) && request.Upload? && f == Faults(true, Written, true, f.deleted, true)
    ensures var t := Apply(s, request, f);
      && request.expense in t.rows && t.rows[request.expense] in t.store
      && t.store[t.rows[request.expense]] == request.bytes
      && (other != request.expense && other in s.rows ==>
            other in t.rows && t.rows[other] == s.rows[other] && t.rows[other] in t.store
            && t.store[t.rows[other]] == s.store[s.rows[other]])
  {
    NewKeyIsNobodys(s, request);
  }

  /** What the table says about other expenses, and their objects, no request changes. */
  lemma OthersUntouched(s: State, request: Request, f: Faults, other: ExpenseId)
    requires Sound(s) && Enabled(s, request) && other != request.expense && other in s.rows
    ensures var t := Apply(s, request, f);
      other in t.rows && t.rows[other] == s.rows[other] && t.rows[other] in t.store
      && t.store[t.rows[other]] == s.store[s.rows[other]]
  {
    NewKeyIsNobodys(s, request);
  }

  // ----------------------------------------------------------------------------- leftovers

  /** Objects no row refers to. */
  function Orphans(s: State): set<Key> { s.store.Keys - s.rows.Values }

  /** The faults under which a request can leave an object behind. */
  predicate Untidy(f: Faults) { !(f.valid && f.saved.Written? && f.flushed && f.deleted && f.committed) }

  lemma OrphanMeans(s: State, k: Key)
    ensures k in Orphans(s) <==> k in s.store && forall e :: e in s.rows ==> s.rows[e] != k
  {
  }

  /** The only object a request can leave behind: the one it saved if it was not
      committed, else the one it replaces or removes. */
  function Leftover(s: State, request: Request, f: Faults): Key {
    if request.Upload? && !(f.valid && f.saved.Written? && (request.expense in s.rows ==> f.flushed) && f.committed)
    then request.key
    else if request.expense in s.rows then s.rows[request.expense] else []
  }

  lemma OrphanIsLeftover(s: State, request: Request, f: Faults, k: Key)
    requires Sound(s) && Enabled(s, request) && !Undermines(s, request, f)
    ensures k in Orphans(Apply(s, request, f)) ==> k in Orphans(s) || (Untidy(f) && k == Leftover(s, request, f))
    ensures k in Orphans(s) ==> k in Orphans(Apply(s, request, f))
  {
    var t := Apply(s, request, f);
    OrphanMeans(s, k);
    OrphanMeans(t, k);
    NewKeyIsNobodys(s, request);
    hide Orphans;
    forall d | d in s.rows && d != request.expense ensures d in t.rows && t.rows[d] == s.rows[d] {
    }
    var now := if request.expense in t.rows then Some(t.rows[request.expense]) else None;
  }

  /** A request leaves at most one object behind, and none when nothing fails. */
  lemma AtMostOneOrphan(s: State, request: Request, f: Faults)
    requires Sound(s) && Enabled(s, request) && !Undermines(s, request, f)
    ensures Untidy(f) || Orphans(Apply(s, request, f)) == Orphans(s)
    ensures |Orphans(Apply(s, request, f))| <= |Orphans(s)| + 1
  {
    hide *;
    var before, after, extra := Orphans(s), Orphans(Apply(s, request, f)), Leftover(s, request, f);
    forall k
      ensures k in after ==> k in before || (Untidy(f) && k == extra)
      ensures k in before ==> k in after
    {
      OrphanIsLeftover(s, request, f, k);
    }
    OneMore(after, before, extra);
  }

  lemma OneMore(after: set<Key>, before: set<Key>, extra: Key)
    requires after <= before + {extra}
    ensures |after| <= |before| + 1
  {
    Fewer(after, before + {extra});
    Fewer(before, before + {extra});
  }

  lemma {:induction false} Fewer(a: set<Key>, b: set<Key>)
    requires a <= b
    ensures |a| <= |b|
  {
    if a != {} {
      var x :| x in a;
      Fewer(a - {x}, b - {x});
    }
  }

  datatype Step = Step(request: Request, faults: Faults)

  /** A run of requests, each key fresh when it is used. */
  ghost predicate Possible(s: State, run: seq<Step>)
    decreases run
  {
    run == []
    || (Enabled(s, run[0].request) && Possible(Apply(s, run[0].request, run[0].faults), run[1..]))
  }

  function Run(s: State, run: seq<Step>): State
    decreases run
  {
    if run == [] then s else Run(Apply(s, run[0].request, run[0].faults), run[1..])
  }

  function UntidySteps(run: seq<Step>): nat {
    if run == [] then 0 else (if Untidy(run[0].faults) then 1 else 0) + UntidySteps(run[1..])
  }

  /** Every state along the run keeps every row's object. */
  ghost predicate AlwaysSound(s: State, run: seq<Step>)
    decreases run
  {
    Sound(s) && (run == [] || AlwaysSound(Apply(s, run[0].request, run[0].faults), run[1..]))
  }

  /** Some request of the run deletes an object and is then rolled back. */
  predicate SomeUndermines(s: State, run: seq<Step>)
    decreases run
  {
    run != []
    && (Undermines(s, run[0].request, run[0].faults)
        || SomeUndermines(Apply(s, run[0].request, run[0].faults), run[1..]))
  }

  /** Every state of a run keeps every row's object exactly if no request undermines one. */
  lemma {:induction false} AlwaysSoundIff(s: State, run: seq<Step>)
    requires Sound(s) && Possible(s, run)
    ensures AlwaysSound(s, run) <==> !SomeUndermines(s, run)
    decreases run
  {
    hide Sound, Apply, Enabled, Undermines;
    if run != [] {
      var t := Apply(s, run[0].request, run[0].faults);
      SoundIffNotUndermined(s, run[0].request, run[0].faults);
      if Sound(t) {
        AlwaysSoundIff(t, run[1..]);
      } else {
        NeverSoundAgain(t, run[1..]);
      }
    }
  }

  lemma NeverSoundAgain(s: State, run: seq<Step>)
    requires !Sound(s)
    ensures !AlwaysSound(s, run)
  {
  }

  /** And then at most one object per failure is left over at the end. */
  lemma {:induction false} RunKeepsSound(s: State, run: seq<Step>)
    requires Sound(s) && Possible(s, run) && !SomeUndermines(s, run)
    ensures Sound(Run(s, run))
    ensures |Orphans(Run(s, run))| <= |Orphans(s)| + UntidySteps(run)
    decreases run
  {
    hide Sound, Apply, Enabled, Undermines, Untidy, Orphans;
    if run != [] {
      var step := run[0];
      SoundIffNotUndermined(s, step.request, step.faults);
      AtMostOneOrphan(s, step.request, step.faults);
      RunKeepsSound(Apply(s, step.request, step.faults), run[1..]);
    }
  }

  /** Where nothing ever fails, storage holds the rows' objects and no others. */
  lemma {:induction false} TidyRunLeavesNothing(s: State, run: seq<Step>)
    requires Sound(s) && Orphans(s) == {} && Possible(s, run)
    requires forall i :: 0 <= i < |run| ==> !Untidy(run[i].faults)
    ensures Run(s, run).store.Keys == Run(s, run).rows.Values
    decreases run
  {
    hide Sound, Apply, Enabled, Orphans;
    if run == [] {
      NoOrphansMeans(s);
    } else {
      var step := run[0];
      assert !Undermines(s, step.request, step.faults);
      SoundIffNotUndermined(s, step.request, step.faults);
      AtMostOneOrphan(s, step.request, step.faults);
      TidyRunLeavesNothing(Apply(s, step.request, step.faults), run[1..]);
    }
  }

  lemma NoOrphansMeans(s: State)
    requires Sound(s) && Orphans(s) == {}
    ensures s.store.Keys == s.rows.Values
  {
    forall k ensures k in s.store.Keys <==> k in s.rows.Values {
      OrphanMeans(s, k);
      if k in s.rows.Values {
        var e :| e in s.rows && s.rows[e] == k;
      }
      if k in s.store {
        var e :| e in s.rows && s.rows[e] == k;
        assert s.rows[e] in s.rows.Values;
      }
    }
  }
}
