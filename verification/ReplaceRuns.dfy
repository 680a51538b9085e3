/** Hard-deleting payroll runs, one by one or to replace a period (app/payroll.py). */
module ReplaceRuns {
  import opened Outcomes
  import opened Schema

  /** DELETABLE_STATUSES of app/payroll_status.py. */
  const DELETABLE := {"Draft", "Previewed", "Rejected"}

  /** What the blockers look at besides the foreign keys. */
  datatype Facts = Facts(status: map<Row, string>, sent: set<Row>)

  datatype Blocker =
    | WrongStatus(status: Option<string>) | VoucherExists | RemittancesExist(n: nat)
    | PayslipsSent(n: nat) | ExpensesLinked(n: nat)

  function Status(facts: Facts, run: Row): Option<string> {
    if run in facts.status then Some(facts.status[run]) else None
  }

  function Of(db: Db, table: Table, run: Row): set<Row> { Matching(db, {Ref(table, Run)}, {run}) }

  function RecordBlockers(db: Db, facts: Facts, run: Row): seq<Blocker> {
    (if Of(db, Voucher, run) != {} then [VoucherExists] else [])
    + (if Of(db, Remittance, run) != {} then [RemittancesExist(|Of(db, Remittance, run)|)] else [])
    + (if Of(db, Delivery, run) * facts.sent != {} then [PayslipsSent(|Of(db, Delivery, run) * facts.sent|)] else [])
    + (if Of(db, Expense, run) != {} then [ExpensesLinked(|Of(db, Expense, run)|)] else [])
  }

  function Blockers(db: Db, facts: Facts, run: Row): seq<Blocker> {
    var status := Status(facts, run);
    (if status.Some? && status.value in DELETABLE then [] else [WrongStatus(status)]) + RecordBlockers(db, facts, run)
  }

  predicate Blocked(db: Db, facts: Facts, run: Row) { Blockers(db, facts, run) != [] }

  /** Rows of the table that name the run. */
  ghost function NamedBy(db: Db, table: Table, run: Row): set<Row> {
    set r | r in db && Ref(table, Run) in db[r] && db[r][Ref(table, Run)] == run
  }

  /** Of a status never acted on, with no money record, and nothing sent to a worker. */
  ghost predicate Deletable(db: Db, facts: Facts, run: Row) {
    && run in facts.status
    && (facts.status[run] == "Draft" || facts.status[run] == "Previewed" || facts.status[run] == "Rejected")
    && (forall r | r in db && Ref(Voucher, Run) in db[r] :: db[r][Ref(Voucher, Run)] != run)
    && (forall r | r in db && Ref(Remittance, Run) in db[r] :: db[r][Ref(Remittance, Run)] != run)
    && (forall r | r in db && Ref(Expense, Run) in db[r] :: db[r][Ref(Expense, Run)] != run)
    && (forall r | r in db && Ref(Delivery, Run) in db[r] && r in facts.sent :: db[r][Ref(Delivery, Run)] != run)
  }

  lemma OfIsNamedBy(db: Db, table: Table, run: Row)
    ensures Of(db, table, run) == NamedBy(db, table, run)
  {
  }

  lemma NoneNamed(db: Db, table: Table, run: Row, some: set<Row>)
    ensures NamedBy(db, table, run) * some == {} <==>
              forall r | r in db && Ref(table, Run) in db[r] && r in some :: db[r][Ref(table, Run)] != run
  {
    if NamedBy(db, table, run) * some != {} {
      var r :| r in NamedBy(db, table, run) * some;
    }
    forall r | r in db && Ref(table, Run) in db[r] && r in some && db[r][Ref(table, Run)] == run
      ensures r in NamedBy(db, table, run) * some
    {
    }
  }

  /** The gate opens exactly for deletable runs. */
  lemma BlockedIff(db: Db, facts: Facts, run: Row)
    ensures Blocked(db, facts, run) <==> !Deletable(db, facts, run)
  {
    hide Of, NamedBy;
    OfIsNamedBy(db, Voucher, run);
    OfIsNamedBy(db, Remittance, run);
    OfIsNamedBy(db, Expense, run);
    OfIsNamedBy(db, Delivery, run);
    NoneNamed(db, Voucher, run, db.Keys);
    NoneNamed(db, Remittance, run, db.Keys);
    NoneNamed(db, Expense, run, db.Keys);
    NoneNamed(db, Delivery, run, facts.sent);
    NamedAreThere(db, Voucher, run);
    NamedAreThere(db, Remittance, run);
    NamedAreThere(db, Expense, run);
  }

  lemma NamedAreThere(db: Db, table: Table, run: Row)
    ensures NamedBy(db, table, run) * db.Keys == NamedBy(db, table, run)
  {
  }

  /** Each reason given holds, with the number it states, and each that holds is given. */
  lemma ReasonsAreTrue(db: Db, facts: Facts, run: Row, b: Blocker)
    ensures b in Blockers(db, facts, run) <==>
              match b
              case WrongStatus(status) =>
                && status == Status(facts, run)
                && !(status.Some? && status.value in {"Draft", "Previewed", "Rejected"})
              case VoucherExists => NamedBy(db, Voucher, run) != {}
              case RemittancesExist(n) => n == |NamedBy(db, Remittance, run)| > 0
              case PayslipsSent(n) => n == |NamedBy(db, Delivery, run) * facts.sent| > 0
              case ExpensesLinked(n) => n == |NamedBy(db, Expense, run)| > 0
  {
    hide Of, NamedBy;
    OfIsNamedBy(db, Voucher, run);
    OfIsNamedBy(db, Remittance, run);
    OfIsNamedBy(db, Expense, run);
    OfIsNamedBy(db, Delivery, run);
  }

  /** Tables whose rows go with their run: bulk deletes, and the items by ORM cascade. */
  const CHILDREN := {Ref(Delivery, Run), Ref(RawEntry, Run), Ref(Archive, Run), Ref(Import, Run), Ref(Item, Run)}

  /** The database without the runs and what goes with them. */
  function Purged(db: Db, runs: set<Row>): Db { Remove(db, runs + Matching(db, CHILDREN, runs)) }

  function SetOf(runs: seq<Row>): set<Row> { set r | r in runs }

  /** The run reported is the first that is blocked, with its reasons. */
  ghost predicate FirstBlocked(db: Db, facts: Facts, runs: seq<Row>, error: (Row, seq<Blocker>)) {
    exists i :: 0 <= i < |runs| && error == (runs[i], Blockers(db, facts, runs[i])) && error.1 != []
                && forall j :: 0 <= j < i ==> !Blocked(db, facts, runs[j])
  }

  class Books {
    var db: Db
    var facts: Facts

    constructor (db: Db, facts: Facts)
      ensures this.db == db && this.facts == facts
    {
      this.db, this.facts := db, facts;
    }

    method PurgePayrollRun(run: Row)
      requires WellTyped(db) && run.table == Run
      modifies this`db
      ensures db == Purged(old(db), {run})
    {
      ghost var was := db;
      db := DeleteWhere(db, {Ref(Delivery, Run)}, {run});
      db := DeleteWhere(db, {Ref(RawEntry, Run)}, {run});
      db := DeleteWhere(db, {Ref(Archive, Run)}, {run});
      db := DeleteWhere(db, {Ref(Import, Run)}, {run});
      db := DeleteWhere(db, {Ref(Item, Run)}, {run});
      db := Remove(db, {run});
      PurgeInSteps(was, run);
    }

    method HardDelete(run: Row) returns (result: Result<(), seq<Blocker>>)
      requires WellTyped(db) && run.table == Run
      modifies this`db
      ensures result.Ok? <==> Deletable(old(db), facts, run)
      ensures result.Err? ==> db == old(db) && result.error == Blockers(old(db), facts, run)
      ensures result.Ok? ==> db == Purged(old(db), {run})
    {
      BlockedIff(db, facts, run);
      var blockers := Blockers(db, facts, run);
      if blockers != [] {
        return Err(blockers);
      }
      PurgePayrollRun(run);
      return Ok(());
    }

    /** All or nothing: the second loop never meets a blocked run, so the failure it
        checks for is never returned. */
    method ReplaceExistingRuns(runs: seq<Row>) returns (result: Result<(), (Row, seq<Blocker>)>)
      requires WellTyped(db) && forall i :: 0 <= i < |runs| ==> runs[i].table == Run
      requires forall i, j :: 0 <= i < j < |runs| ==> runs[i] != runs[j]
      modifies this`db
      ensures result.Ok? <==> forall i :: 0 <= i < |runs| ==> Deletable(old(db), facts, runs[i])
      ensures result.Ok? ==> db == Purged(old(db), SetOf(runs))
      ensures result.Err? ==> db == old(db)
      ensures result.Err? ==> FirstBlocked(db, facts, runs, result.error)
    {
      hide Purged, Blockers, WellTyped, Deletable;
      forall run ensures Blocked(db, facts, run) <==> !Deletable(db, facts, run) {
        BlockedIff(db, facts, run);
      }
      var i := 0;
      while i < |runs|
        invariant 0 <= i <= |runs| && db == old(db)
        invariant forall j :: 0 <= j < i ==> !Blocked(db, facts, runs[j])
      {
        var blockers := Blockers(db, facts, runs[i]);
        if blockers != [] {
          return Err((runs[i], blockers));
        }
        i := i + 1;
      }
      PurgedNothing(db);
      ghost var was := db;
      i := 0;
      assert SetOf(runs[..i]) == {};
      while i < |runs|
        invariant 0 <= i <= |runs|
        invariant db == Purged(was, SetOf(runs[..i]))
        invariant facts == old(facts)
      {
        PurgedKeepsTypes(was, SetOf(runs[..i]));
        PurgedKeepsBlockers(was, facts, SetOf(runs[..i]), runs[i]);
        BlockedIff(db, facts, runs[i]);
        var deleted := HardDelete(runs[i]);
        assert deleted.Ok?;
        PurgedTwice(was, SetOf(runs[..i]), runs[i]);
        assert SetOf(runs[..i + 1]) == SetOf(runs[..i]) + {runs[i]};
        i := i + 1;
      }
      assert runs[..i] == runs;
      return Ok(());
    }
  }

  // -------------------------------------------------------------- deletes in sequence

  /** Removing rows one set after another, or both at once. */
  lemma RemoveTwice(db: Db, a: set<Row>, b: set<Row>)
    ensures Remove(Remove(db, a), b) == Remove(db, a + b)
  {
    forall r | r in db
      ensures Names(db[r], CASCADING, a + b) <==> Names(db[r], CASCADING, a) || Names(db[r], CASCADING, b)
    {
    }
    hide Names;
  }

  lemma PurgedNothing(db: Db)
    ensures Purged(db, {}) == db
  {
  }

  /** Rows that went with earlier ones need not be named again. */
  lemma RemoveAbsorbs(db: Db, a: set<Row>, columns: set<Column>, targets: set<Row>)
    requires WellTyped(db)
    ensures Remove(db, a + Matching(Remove(db, a), columns, targets)) == Remove(db, a + Matching(db, columns, targets))
  {
    var found, all := Matching(Remove(db, a), columns, targets), Matching(db, columns, targets);
    forall r | r in db && r !in a && !Names(db[r], CASCADING, a)
      ensures r in found <==> r in all
      ensures Names(db[r], CASCADING, a + found) <==> Names(db[r], CASCADING, a + all)
    {
      CascadeAgrees(db, a, columns, targets, r);
    }
    forall r | r in db && Names(db[r], CASCADING, a)
      ensures Names(db[r], CASCADING, a + found) && Names(db[r], CASCADING, a + all)
    {
    }
    hide Names, Matching, WellTyped;
  }

  lemma CascadeAgrees(db: Db, a: set<Row>, columns: set<Column>, targets: set<Row>, r: Row)
    requires WellTyped(db) && r in db && r !in a && !Names(db[r], CASCADING, a)
    ensures var found, all := Matching(Remove(db, a), columns, targets), Matching(db, columns, targets);
      && (r in found <==> r in all)
      && (Names(db[r], CASCADING, a + found) <==> Names(db[r], CASCADING, a + all))
  {
    var found, all := Matching(Remove(db, a), columns, targets), Matching(db, columns, targets);
    forall c | c in CASCADING && c in db[r] ensures db[r][c] in found <==> db[r][c] in all {
      var x := db[r][c];
      assert x !in a;
      if x in db {
        NotALink(db, x, c, a);
      }
      hide Names, WellTyped;
    }
    hide Matching, Remove, WellTyped;
  }

  lemma NotALink(db: Db, x: Row, c: Column, a: set<Row>)
    requires WellTyped(db) && x in db && c in CASCADING && x.table == c.Target()
    ensures !Names(db[x], CASCADING, a)
  {
  }

  lemma DeleteAfter(db: Db, a: set<Row>, columns: set<Column>, targets: set<Row>)
    requires WellTyped(db)
    ensures DeleteWhere(Remove(db, a), columns, targets) == Remove(db, a + Matching(db, columns, targets))
  {
    RemoveTwice(db, a, Matching(Remove(db, a), columns, targets));
    RemoveAbsorbs(db, a, columns, targets);
    hide Remove, Matching, WellTyped;
  }

  lemma MatchingEither(db: Db, columns: set<Column>, s: set<Row>, t: set<Row>)
    ensures Matching(db, columns, s) + Matching(db, columns, t) == Matching(db, columns, s + t)
  {
  }

  /** The five deletes before the run's own come to one delete by all five columns. */
  lemma PurgeInSteps(db: Db, run: Row)
    requires WellTyped(db) && run.table == Run
    ensures var d1 := DeleteWhere(db, {Ref(Delivery, Run)}, {run});
      var d2 := DeleteWhere(d1, {Ref(RawEntry, Run)}, {run});
      var d3 := DeleteWhere(d2, {Ref(Archive, Run)}, {run});
      var d4 := DeleteWhere(d3, {Ref(Import, Run)}, {run});
      var d5 := DeleteWhere(d4, {Ref(Item, Run)}, {run});
      Remove(d5, {run}) == Purged(db, {run})
  {
    var a1 := Matching(db, {Ref(Delivery, Run)}, {run});
    var a2 := a1 + Matching(db, {Ref(RawEntry, Run)}, {run});
    var a3 := a2 + Matching(db, {Ref(Archive, Run)}, {run});
    var a4 := a3 + Matching(db, {Ref(Import, Run)}, {run});
    var a5 := a4 + Matching(db, {Ref(Item, Run)}, {run});
    DeleteAfter(db, a1, {Ref(RawEntry, Run)}, {run});
    DeleteAfter(db, a2, {Ref(Archive, Run)}, {run});
    DeleteAfter(db, a3, {Ref(Import, Run)}, {run});
    DeleteAfter(db, a4, {Ref(Item, Run)}, {run});
    RemoveTwice(db, a5, {run});
    ChildrenFound(db, run);
    assert a5 + {run} == {run} + Matching(db, CHILDREN, {run});
    hide Remove, Matching, WellTyped;
  }

  lemma ChildrenFound(db: Db, run: Row)
    ensures Matching(db, {Ref(Delivery, Run)}, {run}) + Matching(db, {Ref(RawEntry, Run)}, {run})
          + Matching(db, {Ref(Archive, Run)}, {run}) + Matching(db, {Ref(Import, Run)}, {run})
          + Matching(db, {Ref(Item, Run)}, {run}) == Matching(db, CHILDREN, {run})
  {
  }

  /** A purge takes the runs, the rows of five tables that name them, and the links to an item
      or delivery that goes; every other row stays as it is. */
  lemma PurgedExactly(db: Db, runs: set<Row>, r: Row)
    requires WellTyped(db) && r in db
    ensures r !in Purged(db, runs) <==>
              || r in runs
              || (r.table in {Delivery, RawEntry, Archive, Import, Item} && Ref(r.table, Run) in db[r]
                  && db[r][Ref(r.table, Run)] in runs)
              || (exists c :: c in {Ref(Link, Item), Ref(Link, Delivery)} && c in db[r]
                    && (db[r][c] in runs || (db[r][c] in db && Ref(c.to, Run) in db[db[r][c]]
                                             && db[db[r][c]][Ref(c.to, Run)] in runs)))
    ensures r in Purged(db, runs) ==> Purged(db, runs)[r] == db[r]
  {
    hide WellTyped;
    NamesAChildColumn(db, runs, r);
    if c :| c in CASCADING && c in db[r] {
      forall d | d in CASCADING && d in db[r] && db[r][d] in db
        ensures Names(db[db[r][d]], CHILDREN, runs) <==>
                  Ref(d.to, Run) in db[db[r][d]] && db[db[r][d]][Ref(d.to, Run)] in runs
      {
        NamesAChildColumn(db, runs, db[r][d]);
        TargetOf(db, r, d);
      }
    }
  }

  lemma TargetOf(db: Db, r: Row, c: Column)
    requires WellTyped(db) && r in db && c in db[r] && c.Ref?
    ensures db[r][c].table == c.to
  {
    assert InSchema(c) && db[r][c].table == c.Target();
  }

  lemma NamesAChildColumn(db: Db, runs: set<Row>, r: Row)
    requires WellTyped(db) && r in db
    ensures Names(db[r], CHILDREN, runs) <==>
              r.table in {Delivery, RawEntry, Archive, Import, Item} && Ref(r.table, Run) in db[r]
              && db[r][Ref(r.table, Run)] in runs
  {
    hide InSchema;
  }

  lemma PurgedKeepsTypes(db: Db, runs: set<Row>)
    requires WellTyped(db)
    ensures WellTyped(Purged(db, runs))
  {
  }

  /** Purging runs changes no blocker of any other run. */
  lemma PurgedKeepsBlockers(db: Db, facts: Facts, runs: set<Row>, run: Row)
    requires WellTyped(db) && run !in runs && (forall r :: r in runs ==> r.table == Run)
    ensures Blockers(Purged(db, runs), facts, run) == Blockers(db, facts, run)
  {
    PurgedKeeps(db, runs, run, Voucher);
    PurgedKeeps(db, runs, run, Remittance);
    PurgedKeeps(db, runs, run, Delivery);
    PurgedKeeps(db, runs, run, Expense);
    hide Of, Purged, WellTyped;
  }

  lemma PurgedKeeps(db: Db, runs: set<Row>, run: Row, table: Table)
    requires WellTyped(db) && run !in runs && (forall r :: r in runs ==> r.table == Run)
    requires table != Run && table != Link
    ensures Of(Purged(db, runs), table, run) == Of(db, table, run)
  {
    forall r | r in Of(db, table, run)
      ensures r in Purged(db, runs)
    {
      assert r.table == table;
      assert forall c :: c in CASCADING ==> c !in db[r];
      forall c | c in CHILDREN && c in db[r] ensures db[r][c] !in runs {
        assert c == Ref(table, Run);
      }
    }
  }

  lemma PurgedTwice(db: Db, runs: set<Row>, run: Row)
    requires WellTyped(db)
    ensures Purged(Purged(db, runs), {run}) == Purged(db, runs + {run})
  {
    var a := runs + Matching(db, CHILDREN, runs);
    var d := Purged(db, runs);
    assert {run} + Matching(d, CHILDREN, {run}) == Matching(d, CHILDREN, {run}) + {run};
    RemoveTwice(d, Matching(d, CHILDREN, {run}), {run});
    DeleteAfter(db, a, CHILDREN, {run});
    RemoveTwice(db, a + Matching(db, CHILDREN, {run}), {run});
    MatchingEither(db, CHILDREN, runs, {run});
    assert a + Matching(db, CHILDREN, {run}) + {run} == (runs + {run}) + Matching(db, CHILDREN, runs + {run});
    hide Remove, Matching, WellTyped;
  }

  // ---------------------------------------------------------- foreign keys afterwards

  /** Row r goes with the runs, cascaded links aside. */
  predicate GoesWith(db: Db, runs: set<Row>, r: Row) {
    r in runs || (r in db && Names(db[r], CHILDREN, runs))
  }

  /** No distribution batch, sent or not, belongs to the runs. */
  ghost predicate NoBatches(db: Db, runs: set<Row>) {
    forall r :: r in db && Ref(Batch, Run) in db[r] ==> db[r][Ref(Batch, Run)] !in runs
  }

  /** A delivery of one of their items is a delivery of that run. */
  ghost predicate NoStrayDeliveries(db: Db, runs: set<Row>) {
    forall r :: r in db && Ref(Delivery, Item) in db[r] && GoesWith(db, runs, db[r][Ref(Delivery, Item)]) ==>
      GoesWith(db, runs, r)
  }

  /** The columns that can lead into rows purged with a run. */
  lemma LeadsIn(db: Db, runs: set<Row>, r: Row, c: Column)
    requires WellTyped(db) && (forall x :: x in runs ==> x.table == Run)
    requires r in db && c in db[r] && GoesWith(db, runs, db[r][c])
    ensures c in CHILDREN || c in {Ref(Voucher, Run), Ref(Remittance, Run), Ref(Expense, Run), Ref(Batch, Run),
                                   Ref(Delivery, Item)} || c in CASCADING
    ensures c.Target() == Run ==> db[r][c] in runs
  {
    var t := db[r][c];
    assert t.table == c.Target() && InSchema(c);
    if t !in runs {
      var d :| d in CHILDREN && d in db[t] && db[t][d] in runs;
      assert d.owner == t.table == c.Target();
      ColumnsIntoChildren(c, d);
    } else {
      ColumnsIntoRuns(c);
    }
    hide InSchema, WellTyped;
  }

  lemma ColumnsIntoRuns(c: Column)
    requires InSchema(c) && c.Target() == Run
    ensures c in CHILDREN || c in {Ref(Voucher, Run), Ref(Remittance, Run), Ref(Expense, Run), Ref(Batch, Run)}
  {
  }

  lemma ColumnsIntoChildren(c: Column, d: Column)
    requires InSchema(c) && d in CHILDREN && c.Target() == d.owner
    ensures c == Ref(Delivery, Item) || c in CASCADING
  {
  }

  /** A run with a voucher, a remittance or an expense is blocked. */
  lemma MoneyBlocks(db: Db, facts: Facts, r: Row, c: Column)
    requires WellTyped(db) && r in db && c in db[r]
    requires c in {Ref(Voucher, Run), Ref(Remittance, Run), Ref(Expense, Run)}
    ensures Blocked(db, facts, db[r][c])
  {
    assert r in Of(db, c.owner, db[r][c]);
    hide WellTyped;
  }

  /** Row r is not purged: it neither goes with the runs nor cascades. */
  lemma LeftMeans(db: Db, runs: set<Row>, r: Row)
    requires WellTyped(db)
    ensures r in Purged(db, runs) ==> r in db && Purged(db, runs)[r] == db[r] && !GoesWith(db, runs, r)
    ensures r in db && !GoesWith(db, runs, r) && r.table != Link ==> r in Purged(db, runs)
    ensures r in Purged(db, runs) ==> forall c :: c in db[r] && c in CASCADING ==> !GoesWith(db, runs, db[r][c])
  {
  }

  lemma MoneyKeepsOut(db: Db, facts: Facts, runs: set<Row>, r: Row, c: Column)
    requires WellTyped(db) && r in db && c in db[r] && (forall x :: x in runs ==> !Blocked(db, facts, x))
    requires c in {Ref(Voucher, Run), Ref(Remittance, Run), Ref(Expense, Run)}
    ensures db[r][c] !in runs
  {
    hide WellTyped, Blocked;
    MoneyBlocks(db, facts, r, c);
  }

  lemma ChildrenKeepOut(db: Db, runs: set<Row>, r: Row, c: Column)
    requires r in db && c in db[r] && c in CHILDREN && db[r][c] in runs
    ensures GoesWith(db, runs, r)
  {
  }

  lemma LeadsToLeft(db: Db, facts: Facts, runs: set<Row>, r: Row, c: Column)
    requires WellTyped(db) && (forall x :: x in runs ==> x.table == Run)
    requires forall x :: x in runs ==> !Blocked(db, facts, x)
    requires NoBatches(db, runs) && NoStrayDeliveries(db, runs)
    requires r in Purged(db, runs) && c in db[r]
    ensures !GoesWith(db, runs, db[r][c])
  {
    hide WellTyped, Blocked, Purged, GoesWith;
    LeftMeans(db, runs, r);
    if GoesWith(db, runs, db[r][c]) {
      LeadsIn(db, runs, r, c);
      if c in CASCADING || c == Ref(Batch, Run) || c == Ref(Delivery, Item) {
        assert false;
      }
      if c in CHILDREN {
        ChildrenKeepOut(db, runs, r, c);
      } else {
        MoneyKeepsOut(db, facts, runs, r, c);
      }
    }
  }

  lemma BatchStays(db: Db, runs: set<Row>, r: Row)
    requires WellTyped(db) && (forall x :: x in runs ==> x.table == Run) && r in db && r.table == Batch
    ensures !GoesWith(db, runs, r)
  {
  }

  /** After a replacement goes through, every foreign key is valid exactly if no
      distribution batch belonged to the runs, deliveries and items agreeing. */
  lemma PurgedIntegrity(db: Db, facts: Facts, runs: set<Row>)
    requires WellTyped(db) && Integrity(db) && (forall x :: x in runs ==> x.table == Run)
    requires forall x :: x in runs ==> !Blocked(db, facts, x)
    ensures Integrity(Purged(db, runs)) <==> NoBatches(db, runs) && NoStrayDeliveries(db, runs)
  {
    hide Purged, Blocked, InSchema;
    var left := Purged(db, runs);
    forall r ensures r in left ==> r in db && left[r] == db[r] && !GoesWith(db, runs, r)
      ensures r in db && !GoesWith(db, runs, r) && r.table != Link ==> r in left
    {
      LeftMeans(db, runs, r);
    }
    if NoBatches(db, runs) && NoStrayDeliveries(db, runs) {
      forall r, c | r in left && c in left[r] ensures left[r][c] in left {
        LeadsToLeft(db, facts, runs, r, c);
        NeverALink(c);
      }
    } else if !NoBatches(db, runs) {
      var r :| r in db && Ref(Batch, Run) in db[r] && db[r][Ref(Batch, Run)] in runs;
      BatchStays(db, runs, r);
      assert left[r][Ref(Batch, Run)] !in left;
    } else {
      var c := Ref(Delivery, Item);
      var r :| r in db && c in db[r] && GoesWith(db, runs, db[r][c]) && !GoesWith(db, runs, r);
      assert left[r][c] !in left;
    }
  }

  lemma NoneOfTable(db: Db, table: Table, run: Row)
    requires WellTyped(db) && forall r :: r in db ==> r.table != table
    ensures Of(db, table, run) == {}
  {
    hide InSchema;
  }

  lemma NothingBlocks(db: Db, facts: Facts, run: Row)
    requires Status(facts, run) == Some("Draft") && Of(db, Voucher, run) == Of(db, Remittance, run) == {}
    requires Of(db, Expense, run) == Of(db, Delivery, run) == {}
    ensures !Blocked(db, facts, run)
  {
    hide Of;
  }

  // A draft run with one distribution batch and nothing that blocks it.

  const RUN := Row(Run, 1)
  const BATCH := Row(Batch, 1)

  function JustRun(): Db { map[RUN := map[]] }

  function OfBatch(): Refs { map[Ref(Batch, Run) := RUN] }

  function WithBatch(): Db { JustRun()[BATCH := OfBatch()] }

  function DraftFacts(): Facts { Facts(map[RUN := "Draft"], {}) }

  lemma RunFits()
    ensures WellTyped(JustRun()) && Integrity(JustRun()) && RUN in JustRun() && BATCH !in JustRun()
    ensures forall r :: r in JustRun() ==> r == RUN
  {
  }

  lemma BatchFits()
    ensures WellTyped(WithBatch()) && Integrity(WithBatch())
    ensures BATCH in WithBatch() && WithBatch()[BATCH] == OfBatch()
    ensures forall r :: r in WithBatch() ==> r == RUN || r == BATCH
  {
    RunFits();
    hide WellTyped, Integrity, JustRun;
    RowAdded(JustRun(), BATCH, OfBatch());
  }

  lemma BatchLeftDangling()
    ensures WellTyped(WithBatch()) && Integrity(WithBatch()) && !Blocked(WithBatch(), DraftFacts(), RUN)
    ensures !Integrity(Purged(WithBatch(), {RUN}))
  {
    hide Of, Purged, WellTyped, Integrity, WithBatch, Blocked;
    BatchFits();
    NoneOfTable(WithBatch(), Voucher, RUN);
    NoneOfTable(WithBatch(), Remittance, RUN);
    NoneOfTable(WithBatch(), Expense, RUN);
    NoneOfTable(WithBatch(), Delivery, RUN);
    NothingBlocks(WithBatch(), DraftFacts(), RUN);
    assert WithBatch()[BATCH][Ref(Batch, Run)] in {RUN};
    PurgedIntegrity(WithBatch(), DraftFacts(), {RUN});
  }
}
