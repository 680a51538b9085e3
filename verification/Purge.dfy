/** Emptying a tenant (app/demo_data.py): one delete after another over the foreign-key
    graph, and re-pointing what other records say about users who leave. */
module Purge {
  import opened Outcomes
  import opened Schema

  /** The columns `release_user_references` rewrites, in its order. */
  const RELEASED: seq<Column> := [
    UserRef(Run, Creator), UserRef(Run, Reviewer), UserRef(Run, Approver),
    UserRef(Voucher, Preparer), UserRef(Voucher, Reviewer), UserRef(Voucher, Approver),
    UserRef(Expense, Payer), UserRef(Expense, Approver), UserRef(Expense, Recorder),
    UserRef(Import, Main), UserRef(Proposal, Main), UserRef(Batch, Main), UserRef(Rate, Main),
    UserRef(Event, Main), UserRef(Audit, Main)]

  function ReleasedBefore(i: nat): set<Column>
    requires i <= |RELEASED|
  {
    set c | c in RELEASED[..i]
  }

  function AllReleased(): set<Column> { ReleasedBefore(|RELEASED|) }

  /** The database after `release_user_references`. */
  function Release(db: Db, users: set<Row>, to: Option<Row>): Db {
    DeleteWhere(Repoint(db, AllReleased(), users, to), {UserRef(Notification, Main)}, users)
  }

  /** The tables, changed one statement at a time. */
  class Database {
    var rows: Db

    constructor (db: Db)
      ensures rows == db
    {
      rows := db;
    }

    method BulkDelete(columns: set<Column>, targets: set<Row>)
      modifies this
      ensures rows == DeleteWhere(old(rows), columns, targets)
    {
      rows := DeleteWhere(rows, columns, targets);
    }

    method Update(column: Column, from: set<Row>, to: Option<Row>)
      modifies this
      ensures rows == Repoint(old(rows), {column}, from, to)
    {
      rows := Repoint(rows, {column}, from, to);
    }

    method DeleteRows(ids: set<Row>)
      modifies this
      ensures rows == Remove(old(rows), ids)
    {
      rows := Remove(rows, ids);
    }

    method ReleaseUserReferences(users: set<Row>, to: Option<Row>)
      modifies this
      ensures rows == if users == {} then old(rows) else Release(old(rows), users, to)
    {
      if users == {} {
        return;
      }
      var i := 0;
      RepointNothing(rows, users, to);
      while i < |RELEASED|
        invariant 0 <= i <= |RELEASED|
        invariant rows == Repoint(old(rows), ReleasedBefore(i), users, to)
      {
        Update(RELEASED[i], users, to);
        RepointOneMore(old(rows), i, users, to);
        i := i + 1;
      }
      BulkDelete({UserRef(Notification, Main)}, users);
    }

    /** `purge_obsolete_platform_users`; returns who was removed. */
    method PurgeObsoletePlatformUsers(email: Row -> string, roster: set<string>, to: Option<Row>)
      returns (removed: set<Row>)
      modifies this
      ensures removed == Obsolete(old(rows), email, roster, to)
      ensures forall r :: r in removed ==>
                r in old(rows) && r.table == User && Ref(User, Company) !in old(rows)[r]
                && email(r) !in roster && to != Some(r)
      ensures forall r :: r in rows && r.table == User && Ref(User, Company) !in rows[r] ==>
                email(r) in roster || to == Some(r)
      ensures rows == if removed == {} then old(rows) else Remove(Release(old(rows), removed, to), removed)
    {
      removed := Obsolete(rows, email, roster, to);
      RosterIsLeft(rows, email, roster, to);
      hide Release, Remove, Obsolete;
      if removed != {} {
        ReleaseUserReferences(removed, to);
        DeleteRows(removed);
      }
    }

    /** Section 1, first half: deliveries go before the items and batches they name. */
    method PurgeRunFiles(runs: set<Row>, ghost db: Db, ghost co: Row, ghost to: Option<Row>)
      returns (ghost steps: seq<Db>)
      requires WellTyped(db) && co.table == Company && rows == Stage(db, co, to, 0)
      requires runs == RunsOf(db, co)
      modifies this
      ensures rows == Stage(db, co, to, 3)
      ensures |steps| == 3 && Traces(steps, 0, db, co, to)
    {
      hide Stage, DeleteWhere, Remove, Release, WellTyped, Matching, Traces;
      hide RunsOf, EmployeesOf, UsersOf, EventsOf;
      steps := [];
      TraceStarts(0, db, co, to);
      BulkDelete({Ref(Delivery, Run)}, runs);
      PlanAdvances(db, co, to, Delivery);
      TraceGrows(steps, rows, 0, db, co, to);
      steps := steps + [rows];
      BulkDelete({Ref(Archive, Run)}, runs);
      PlanAdvances(db, co, to, Archive);
      TraceGrows(steps, rows, 0, db, co, to);
      steps := steps + [rows];
      BulkDelete({Ref(RawEntry, Run)}, runs);
      PlanAdvances(db, co, to, RawEntry);
      TraceGrows(steps, rows, 0, db, co, to);
      steps := steps + [rows];
    }

    /** Section 1, second half. */
    method PurgeRunRecords(runs: set<Row>, ghost db: Db, ghost co: Row, ghost to: Option<Row>)
      returns (ghost steps: seq<Db>)
      requires WellTyped(db) && co.table == Company && rows == Stage(db, co, to, 3)
      requires runs == RunsOf(db, co)
      modifies this
      ensures rows == Stage(db, co, to, 6)
      ensures |steps| == 3 && Traces(steps, 3, db, co, to)
    {
      hide Stage, DeleteWhere, Remove, Release, WellTyped, Matching, Traces;
      hide RunsOf, EmployeesOf, UsersOf, EventsOf;
      steps := [];
      TraceStarts(3, db, co, to);
      BulkDelete({Ref(Remittance, Run)}, runs);
      PlanAdvances(db, co, to, Remittance);
      TraceGrows(steps, rows, 3, db, co, to);
      steps := steps + [rows];
      BulkDelete({Ref(Voucher, Run)}, runs);
      PlanAdvances(db, co, to, Voucher);
      TraceGrows(steps, rows, 3, db, co, to);
      steps := steps + [rows];
      BulkDelete({Ref(Item, Run)}, runs);
      PlanAdvances(db, co, to, Item);
      TraceGrows(steps, rows, 3, db, co, to);
      steps := steps + [rows];
    }

    /** Section 2: records attached to the tenant or to one of its runs. */
    method PurgeTenantRecords(company: Row, runs: set<Row>, ghost db: Db, ghost co: Row, ghost to: Option<Row>)
      returns (ghost steps: seq<Db>)
      requires WellTyped(db) && co.table == Company && rows == Stage(db, co, to, 6)
      requires company == co && runs == RunsOf(db, co)
      modifies this
      ensures rows == Stage(db, co, to, 9)
      ensures |steps| == 3 && Traces(steps, 6, db, co, to)
    {
      hide Stage, DeleteWhere, Remove, Release, WellTyped, Matching, Traces;
      hide RunsOf, EmployeesOf, UsersOf, EventsOf;
      steps := [];
      TraceStarts(6, db, co, to);
      BulkDelete({Ref(Batch, Company), Ref(Batch, Run)}, {company} + runs);
      PlanAdvances(db, co, to, Batch);
      TraceGrows(steps, rows, 6, db, co, to);
      steps := steps + [rows];
      BulkDelete({Ref(Expense, Company), Ref(Expense, Run)}, {company} + runs);
      PlanAdvances(db, co, to, Expense);
      TraceGrows(steps, rows, 6, db, co, to);
      steps := steps + [rows];
      BulkDelete({Ref(Import, Company), Ref(Import, Run)}, {company} + runs);
      PlanAdvances(db, co, to, Import);
      TraceGrows(steps, rows, 6, db, co, to);
      steps := steps + [rows];
    }

    /** Section 3: the event log, and before it the notices that name its events. */
    method PurgeEvents(company: Row, users: set<Row>, ghost db: Db, ghost co: Row, ghost to: Option<Row>)
      returns (ghost steps: seq<Db>)
      requires WellTyped(db) && co.table == Company && rows == Stage(db, co, to, 9)
      requires company == co && users == UsersOf(db, co)
      modifies this
      ensures rows == Stage(db, co, to, 11)
      ensures |steps| == 2 && Traces(steps, 9, db, co, to)
    {
      hide Stage, DeleteWhere, Remove, Release, WellTyped, Matching, Traces;
      hide RunsOf, EmployeesOf, UsersOf, EventsOf;
      steps := [];
      TraceStarts(9, db, co, to);
      var events := Matching(rows, {Ref(Event, Company), UserRef(Event, Main)}, {company} + users);
      EventsAtStage(db, co, to, 9);
      BulkDelete({Ref(Notification, Company), Ref(Notification, Event), UserRef(Notification, Main)},
                 {company} + events + users);
      PlanAdvances(db, co, to, Notification);
      TraceGrows(steps, rows, 9, db, co, to);
      steps := steps + [rows];
      DeleteRows(events);
      EventsAdvance(db, co, to);
      TraceGrows(steps, rows, 9, db, co, to);
      steps := steps + [rows];
    }

    /** Section 4: roster satellites, then the runs and the roster. */
    method PurgeRoster(company: Row, employees: set<Row>, ghost db: Db, ghost co: Row, ghost to: Option<Row>)
      returns (ghost steps: seq<Db>)
      requires WellTyped(db) && co.table == Company && rows == Stage(db, co, to, 11)
      requires company == co && employees == EmployeesOf(db, co)
      modifies this
      ensures rows == Stage(db, co, to, 16)
      ensures |steps| == 5 && Traces(steps, 11, db, co, to)
    {
      hide Stage, DeleteWhere, Remove, Release, WellTyped, Matching, Traces;
      hide RunsOf, EmployeesOf, UsersOf, EventsOf;
      steps := [];
      TraceStarts(11, db, co, to);
      BulkDelete({Ref(WageRate, Company), Ref(WageRate, Employee)}, {company} + employees);
      PlanAdvances(db, co, to, WageRate);
      TraceGrows(steps, rows, 11, db, co, to);
      steps := steps + [rows];
      BulkDelete({Ref(Deployment, Company), Ref(Deployment, Employee)}, {company} + employees);
      PlanAdvances(db, co, to, Deployment);
      TraceGrows(steps, rows, 11, db, co, to);
      steps := steps + [rows];
      BulkDelete({Ref(Proposal, Company)}, {company});
      PlanAdvances(db, co, to, Proposal);
      TraceGrows(steps, rows, 11, db, co, to);
      steps := steps + [rows];
      BulkDelete({Ref(Run, Company)}, {company});
      PlanAdvances(db, co, to, Run);
      TraceGrows(steps, rows, 11, db, co, to);
      steps := steps + [rows];
      BulkDelete({Ref(Employee, Company)}, {company});
      PlanAdvances(db, co, to, Employee);
      TraceGrows(steps, rows, 11, db, co, to);
      steps := steps + [rows];
    }

    /** Section 5: the users, after what they signed is released. */
    method PurgeUsers(users: set<Row>, replacement: Option<Row>, ghost db: Db, ghost co: Row, ghost to: Option<Row>)
      returns (ghost steps: seq<Db>)
      requires WellTyped(db) && co.table == Company && rows == Stage(db, co, to, 16)
      requires users == UsersOf(db, co) && replacement == to
      modifies this
      ensures rows == Stage(db, co, to, 19)
      ensures |steps| == 3 && Traces(steps, 16, db, co, to)
    {
      hide Stage, DeleteWhere, Remove, Release, WellTyped, Matching, Traces;
      hide RunsOf, EmployeesOf, UsersOf, EventsOf;
      steps := [];
      TraceStarts(16, db, co, to);
      BulkDelete({UserRef(Audit, Main)}, users);
      PlanAdvances(db, co, to, Audit);
      TraceGrows(steps, rows, 16, db, co, to);
      steps := steps + [rows];
      ReleaseUserReferences(users, replacement);
      ReleaseAdvances(db, co, to);
      TraceGrows(steps, rows, 16, db, co, to);
      steps := steps + [rows];
      DeleteRows(users);
      UsersAdvance(db, co, to);
      TraceGrows(steps, rows, 16, db, co, to);
      steps := steps + [rows];
    }

    /** `purge_client_company`. A delete by no ids matches nothing, so the guards for empty
        id lists need no branch. `trace` lists the states after each statement, the release
        of the users counting as one. */
    method PurgeClientCompany(co: Row, to: Option<Row>, dropCompany: bool) returns (ghost trace: seq<Db>)
      requires WellTyped(rows) && co.table == Company
      modifies this
      ensures rows == Stage(old(rows), co, to, if dropCompany then DROPPING else DROPPING - 1)
      ensures |trace| == (if dropCompany then DROPPING else DROPPING - 1)
      ensures Traces(trace, 0, old(rows), co, to)
      ensures co in rows <==> co in old(rows) && !dropCompany
    {
      CompanyGoesLast(rows, co, to);
      ghost var db := rows;
      var runs := Matching(rows, {Ref(Run, Company)}, {co});
      var employees := Matching(rows, {Ref(Employee, Company)}, {co});
      var users := Matching(rows, {Ref(User, Company)}, {co});
      StageZero(db, co, to);
      assert runs == RunsOf(db, co) && employees == EmployeesOf(db, co) && users == UsersOf(db, co);
      assert Traces([], 0, db, co, to);
      hide Stage, Remove, WellTyped, Matching, RunsOf, EmployeesOf, UsersOf, Traces;
      trace := [];
      ghost var files := PurgeRunFiles(runs, db, co, to);
      TraceExtends(trace, files, db, co, to);
      trace := trace + files;
      assert |trace| == 3;
      ghost var records := PurgeRunRecords(runs, db, co, to);
      TraceExtends(trace, records, db, co, to);
      trace := trace + records;
      assert |trace| == 6;
      ghost var attached := PurgeTenantRecords(co, runs, db, co, to);
      TraceExtends(trace, attached, db, co, to);
      trace := trace + attached;
      assert |trace| == 9;
      ghost var events := PurgeEvents(co, users, db, co, to);
      TraceExtends(trace, events, db, co, to);
      trace := trace + events;
      assert |trace| == 11;
      ghost var roster := PurgeRoster(co, employees, db, co, to);
      TraceExtends(trace, roster, db, co, to);
      trace := trace + roster;
      assert |trace| == 16;
      ghost var people := PurgeUsers(users, to, db, co, to);
      TraceExtends(trace, people, db, co, to);
      trace := trace + people;
      assert |trace| == 19;
      if dropCompany {
        DeleteRows({co});
        DropAdvances(db, co, to);
        TraceLast(rows, |trace|, db, co, to);
        TraceExtends(trace, [rows], db, co, to);
        trace := trace + [rows];
      }
    }
  }

  /** Platform logins off the roster; the replacement is never one of them. */
  function Obsolete(db: Db, email: Row -> string, roster: set<string>, to: Option<Row>): set<Row> {
    set r | r in db && r.table == User && Ref(User, Company) !in db[r] && email(r) !in roster
            && (to.Some? ==> r != to.value)
  }

  /** Of the users of no company, those on the roster and the replacement are left. */
  lemma RosterIsLeft(db: Db, email: Row -> string, roster: set<string>, to: Option<Row>)
    ensures var removed := Obsolete(db, email, roster, to);
      var left := if removed == {} then db else Remove(Release(db, removed, to), removed);
      && (forall r :: r in removed ==>
            r in db && r.table == User && Ref(User, Company) !in db[r] && email(r) !in roster && to != Some(r))
      && (forall r :: r in left && r.table == User && Ref(User, Company) !in left[r] ==>
            email(r) in roster || to == Some(r))
  {
    hide Names, AllReleased, Repointed;
    var removed := Obsolete(db, email, roster, to);
    var left := if removed == {} then db else Remove(Release(db, removed, to), removed);
    forall r | r in left && r.table == User && Ref(User, Company) !in left[r]
      ensures email(r) in roster || to == Some(r)
    {
      if removed != {} {
        CompanyKept(db[r], removed, to);
        assert left[r] == Repointed(db[r], AllReleased(), removed, to);
      }
      assert r in db && Ref(User, Company) !in db[r] && r !in removed;
    }
  }

  lemma CompanyKept(refs: Refs, users: set<Row>, to: Option<Row>)
    ensures Ref(User, Company) in Repointed(refs, AllReleased(), users, to) <==> Ref(User, Company) in refs
  {
    hide AllReleased;
    if Ref(User, Company) in AllReleased() {
      ReleasedAreUserRefs(Ref(User, Company));
      assert false;
    }
  }

  // ------------------------------------------------- where the statements have got to

  /** The statement of the purge that deletes rows of the table; 0 if none does. */
  function Rank(t: Table): nat {
    match t
    case Delivery => 1
    case Archive => 2
    case RawEntry => 3
    case Remittance => 4
    case Voucher => 5
    case Item => 6
    case Batch => 7
    case Expense => 8
    case Import => 9
    case Notification => 10
    case Event => 11
    case WageRate => 12
    case Deployment => 13
    case Proposal => 14
    case Run => 15
    case Employee => 16
    case Audit => 17
    case User => 19
    case _ => 0
  }

  /** The statement that re-points columns, and the one that deletes the company row. */
  const RELEASING := 18
  const DROPPING := 20

  /** The columns by which the purge deletes rows of the table. */
  function PlanColumns(t: Table): set<Column> {
    match t
    case Delivery | Archive | RawEntry | Remittance | Voucher | Item => {Ref(t, Run)}
    case Batch | Expense | Import => {Ref(t, Company), Ref(t, Run)}
    case Notification => {Ref(t, Company), Ref(t, Event), UserRef(t, Main)}
    case Event => {Ref(t, Company), UserRef(t, Main)}
    case WageRate | Deployment => {Ref(t, Company), Ref(t, Employee)}
    case Proposal | Run | Employee | User => {Ref(t, Company)}
    case Audit => {UserRef(t, Main)}
    case _ => {}
  }

  predicate Deleting(c: Column) { c in PlanColumns(c.owner) }

  function RunsOf(db: Db, co: Row): set<Row> { Matching(db, {Ref(Run, Company)}, {co}) }

  function EmployeesOf(db: Db, co: Row): set<Row> { Matching(db, {Ref(Employee, Company)}, {co}) }

  function UsersOf(db: Db, co: Row): set<Row> { Matching(db, {Ref(User, Company)}, {co}) }

  function EventsOf(db: Db, co: Row): set<Row> {
    Matching(db, {Ref(Event, Company), UserRef(Event, Main)}, {co} + UsersOf(db, co))
  }

  /** The rows the deletes go by: the company, its runs, its roster, its users, and the
      events about it or by its users. */
  function Leaving(db: Db, co: Row): set<Row> {
    {co} + RunsOf(db, co) + EmployeesOf(db, co) + UsersOf(db, co) + EventsOf(db, co)
  }

  /** The ids the purge deletes rows of the table by. */
  function PlanTargets(db: Db, co: Row, t: Table): set<Row> {
    match t
    case Batch | Expense | Import => {co} + RunsOf(db, co)
    case Notification => {co} + EventsOf(db, co) + UsersOf(db, co)
    case Event => {co} + UsersOf(db, co)
    case WageRate | Deployment => {co} + EmployeesOf(db, co)
    case Proposal | Run | Employee | User => {co}
    case Audit => UsersOf(db, co)
    case _ => RunsOf(db, co)
  }

  /** The row refers to a row that is leaving, by a column the deletes go by. */
  predicate Doomed(db: Db, co: Row, r: Row) {
    r in db && Names(db[r], PlanColumns(r.table), Leaving(db, co))
  }

  /** One of the first k statements deletes the row itself. */
  predicate Struck(db: Db, co: Row, k: nat, r: Row) {
    r in db && ((Rank(r.table) <= k && Doomed(db, co, r)) || (r == co && DROPPING <= k))
  }

  /** The row is gone after k statements: struck, or a link that cascaded. */
  predicate Gone(db: Db, co: Row, k: nat, r: Row) {
    && r in db
    && (Struck(db, co, k, r) || exists c :: c in db[r] && c in CASCADING && Struck(db, co, k, db[r][c]))
  }

  /** The columns of a row after k statements. */
  function Kept(db: Db, co: Row, to: Option<Row>, k: nat, r: Row): Refs
    requires r in db
  {
    if k < RELEASING then db[r] else Repointed(db[r], AllReleased(), UsersOf(db, co), to)
  }

  /** The whole database after k statements, read off the database before them. */
  function Stage(db: Db, co: Row, to: Option<Row>, k: nat): Db {
    map r | r in db && !Gone(db, co, k, r) :: Kept(db, co, to, k, r)
  }

  /** The states listed are the stages after the given one. */
  ghost predicate Traces(trace: seq<Db>, from: nat, db: Db, co: Row, to: Option<Row>) {
    forall k :: 0 <= k < |trace| ==> trace[k] == Stage(db, co, to, from + k + 1)
  }

  /** The company's own row is there until the last statement. */
  lemma CompanyGoesLast(db: Db, co: Row, to: Option<Row>)
    requires WellTyped(db) && co.table == Company
    ensures co in Stage(db, co, to, DROPPING - 1) <==> co in db
    ensures co !in Stage(db, co, to, DROPPING)
  {
    hide Leaving, Repointed, InSchema;
    if co in db {
      assert PlanColumns(co.table) == {} && !Doomed(db, co, co);
      OnlyLinksCascade(db, co, DROPPING - 1, co);
    }
  }

  lemma TraceExtends(trace: seq<Db>, steps: seq<Db>, db: Db, co: Row, to: Option<Row>)
    requires Traces(trace, 0, db, co, to) && Traces(steps, |trace|, db, co, to)
    ensures Traces(trace + steps, 0, db, co, to)
  {
    hide Stage;
  }

  lemma TraceStarts(from: nat, db: Db, co: Row, to: Option<Row>)
    ensures Traces([], from, db, co, to)
  {
    hide Stage;
  }

  lemma TraceGrows(steps: seq<Db>, s: Db, from: nat, db: Db, co: Row, to: Option<Row>)
    requires Traces(steps, from, db, co, to) && s == Stage(db, co, to, from + |steps| + 1)
    ensures Traces(steps + [s], from, db, co, to)
  {
    hide Stage;
  }

  lemma TraceLast(s: Db, from: nat, db: Db, co: Row, to: Option<Row>)
    requires s == Stage(db, co, to, from + 1)
    ensures Traces([s], from, db, co, to)
  {
    hide Stage;
  }

  lemma UnrankedStays(t: Table)
    requires Rank(t) == 0
    ensures PlanColumns(t) == {}
  {
  }

  lemma StageZero(db: Db, co: Row, to: Option<Row>)
    ensures Stage(db, co, to, 0) == db
  {
    forall r | r in db ensures !Struck(db, co, 0, r) {
      if Rank(r.table) == 0 {
        UnrankedStays(r.table);
      }
    }
    hide Struck;
  }

  lemma RankInjective(t: Table, u: Table)
    requires Rank(t) == Rank(u) > 0
    ensures t == u
  {
  }

  // -------------------------------------------------- each statement, one stage on

  lemma MatchingOne(db: Db, c: Column, targets: set<Row>, x: Row)
    requires WellTyped(db)
    ensures x in Matching(db, {c}, targets) ==> x.table == c.owner
  {
  }

  lemma MatchingTwo(db: Db, c: Column, d: Column, targets: set<Row>, x: Row)
    requires WellTyped(db) && c.owner == d.owner
    ensures x in Matching(db, {c, d}, targets) ==> x.table == c.owner
  {
  }

  /** The rows that are leaving, table by table. */
  lemma LeavingByTable(db: Db, co: Row, x: Row)
    requires WellTyped(db) && co.table == Company
    ensures x.table == Company ==> (x in Leaving(db, co) <==> x == co)
    ensures x.table == Run ==> (x in Leaving(db, co) <==> x in RunsOf(db, co))
    ensures x.table == Employee ==> (x in Leaving(db, co) <==> x in EmployeesOf(db, co))
    ensures x.table == User ==> (x in Leaving(db, co) <==> x in UsersOf(db, co))
    ensures x.table == Event ==> (x in Leaving(db, co) <==> x in EventsOf(db, co))
    ensures x in RunsOf(db, co) ==> x.table == Run
    ensures x in EmployeesOf(db, co) ==> x.table == Employee
    ensures x in UsersOf(db, co) ==> x.table == User
    ensures x in EventsOf(db, co) ==> x.table == Event
    ensures x.table !in {Company, Run, Employee, User, Event} ==> x !in Leaving(db, co)
  {
    MatchingOne(db, Ref(Run, Company), {co}, x);
    MatchingOne(db, Ref(Employee, Company), {co}, x);
    MatchingOne(db, Ref(User, Company), {co}, x);
    MatchingTwo(db, Ref(Event, Company), UserRef(Event, Main), {co} + UsersOf(db, co), x);
    hide Matching, WellTyped;
  }

  lemma TargetsLeave(db: Db, co: Row, t: Table)
    ensures PlanTargets(db, co, t) <= Leaving(db, co)
  {
    hide RunsOf, EmployeesOf, UsersOf, EventsOf;
  }

  lemma PlanTables(t: Table, c: Column)
    requires c in PlanColumns(t)
    ensures c.Target() in {Company, Run, Employee, User, Event}
  {
  }

  lemma CompanyTargeted(db: Db, co: Row, t: Table, c: Column)
    requires c in PlanColumns(t) && c.Target() == Company
    ensures co in PlanTargets(db, co, t)
  {
    hide RunsOf, EmployeesOf, UsersOf, EventsOf;
  }

  lemma RunsTargeted(db: Db, co: Row, t: Table, c: Column)
    requires c in PlanColumns(t) && c.Target() == Run
    ensures RunsOf(db, co) <= PlanTargets(db, co, t)
  {
    hide RunsOf, EmployeesOf, UsersOf, EventsOf;
  }

  lemma EmployeesTargeted(db: Db, co: Row, t: Table, c: Column)
    requires c in PlanColumns(t) && c.Target() == Employee
    ensures EmployeesOf(db, co) <= PlanTargets(db, co, t)
  {
    hide RunsOf, EmployeesOf, UsersOf, EventsOf;
  }

  lemma UsersTargeted(db: Db, co: Row, t: Table, c: Column)
    requires c in PlanColumns(t) && c.Target() == User
    ensures UsersOf(db, co) <= PlanTargets(db, co, t)
  {
    hide RunsOf, EmployeesOf, UsersOf, EventsOf;
  }

  lemma EventsTargeted(db: Db, co: Row, t: Table, c: Column)
    requires c in PlanColumns(t) && c.Target() == Event
    ensures EventsOf(db, co) <= PlanTargets(db, co, t)
  {
    hide RunsOf, EmployeesOf, UsersOf, EventsOf;
  }

  /** The ids the purge deletes by are the leaving rows of the tables named. */
  lemma TargetsAreLeaving(db: Db, co: Row, t: Table, c: Column, x: Row)
    requires WellTyped(db) && co.table == Company && c in PlanColumns(t) && x.table == c.Target()
    ensures x in PlanTargets(db, co, t) <==> x in Leaving(db, co)
  {
    hide *;
    LeavingByTable(db, co, x);
    TargetsLeave(db, co, t);
    PlanTables(t, c);
    if x.table == Company {
      CompanyTargeted(db, co, t, c);
    } else if x.table == Run {
      RunsTargeted(db, co, t, c);
    } else if x.table == Employee {
      EmployeesTargeted(db, co, t, c);
    } else if x.table == User {
      UsersTargeted(db, co, t, c);
    } else {
      EventsTargeted(db, co, t, c);
    }
  }

  /** Going by the plan's ids or by all leaving rows picks the same rows of a table. */
  lemma PlanPicks(db: Db, co: Row, t: Table, refs: Refs)
    requires WellTyped(db) && co.table == Company
    requires forall c :: c in refs ==> refs[c].table == c.Target()
    ensures Names(refs, PlanColumns(t), PlanTargets(db, co, t)) <==> Names(refs, PlanColumns(t), Leaving(db, co))
  {
    forall c | c in PlanColumns(t) && c in refs
      ensures refs[c] in PlanTargets(db, co, t) <==> refs[c] in Leaving(db, co)
    {
      TargetsAreLeaving(db, co, t, c, refs[c]);
    }
    hide PlanColumns, PlanTargets, Leaving, WellTyped;
  }

  lemma RepointNothing(db: Db, users: set<Row>, to: Option<Row>)
    ensures Repoint(db, ReleasedBefore(0), users, to) == db
  {
    assert ReleasedBefore(0) == {};
    forall r | r in db ensures Repointed(db[r], {}, users, to) == db[r] {
    }
  }

  lemma RepointOneMore(db: Db, i: nat, users: set<Row>, to: Option<Row>)
    requires i < |RELEASED|
    ensures Repoint(Repoint(db, ReleasedBefore(i), users, to), {RELEASED[i]}, users, to)
         == Repoint(db, ReleasedBefore(i + 1), users, to)
  {
    var c, cs := RELEASED[i], ReleasedBefore(i);
    assert ReleasedBefore(i + 1) == cs + {c};
    RepointMore(db, cs, c, users, to);
  }

  lemma RepointMore(db: Db, cs: set<Column>, c: Column, users: set<Row>, to: Option<Row>)
    ensures Repoint(Repoint(db, cs, users, to), {c}, users, to) == Repoint(db, cs + {c}, users, to)
  {
    forall r | r in db
      ensures Repointed(Repointed(db[r], cs, users, to), {c}, users, to) == Repointed(db[r], cs + {c}, users, to)
    {
      RepointedMore(db[r], cs, c, users, to);
    }
    hide Repointed;
  }

  lemma RepointedMore(refs: Refs, cs: set<Column>, c: Column, users: set<Row>, to: Option<Row>)
    ensures Repointed(Repointed(refs, cs, users, to), {c}, users, to) == Repointed(refs, cs + {c}, users, to)
  {
  }

  /** Columns a row is deleted by belong to its table, and are not rewritten before. */
  lemma PlanOwner(t: Table, c: Column)
    requires c in PlanColumns(t)
    ensures c.owner == t && 0 < Rank(t) < DROPPING && Rank(t) != RELEASING
    ensures RELEASING < Rank(t) ==> c == Ref(User, Company)
  {
  }

  /** Statement by statement, what is struck grows by the doomed rows of one table. */
  lemma StruckAdvances(db: Db, co: Row, t: Table, r: Row)
    requires 0 < Rank(t) < DROPPING
    ensures Struck(db, co, Rank(t), r) <==> Struck(db, co, Rank(t) - 1, r) || (r.table == t && Doomed(db, co, r))
  {
    if Rank(r.table) == Rank(t) {
      RankInjective(r.table, t);
    }
    hide Rank, Doomed;
  }

  lemma StruckIsThere(db: Db, co: Row, k: nat, r: Row)
    ensures Struck(db, co, k, r) ==> r in db
  {
  }

  /** Nothing that is not a link has cascading columns. */
  lemma OnlyLinksCascade(db: Db, co: Row, k: nat, r: Row)
    requires WellTyped(db) && r in db && r.table != Link
    ensures Gone(db, co, k, r) <==> Struck(db, co, k, r)
  {
    hide Struck;
  }

  /** The releases rewrite only columns that refer to users. */
  lemma ReleasedAreUserRefs(c: Column)
    requires c in AllReleased()
    ensures c.UserRef?
  {
  }

  lemma OthersAreKept(db: Db, co: Row, to: Option<Row>, k: nat, r: Row, c: Column)
    requires r in db && !c.UserRef?
    ensures c in Kept(db, co, to, k, r) <==> c in db[r]
    ensures c in db[r] ==> Kept(db, co, to, k, r)[c] == db[r][c]
  {
    if c in AllReleased() {
      ReleasedAreUserRefs(c);
    }
    hide AllReleased;
  }

  /** The delete matches, of the rows still there, exactly the doomed ones of its table. */
  lemma DoomedIsMatched(db: Db, co: Row, to: Option<Row>, t: Table, r: Row)
    requires WellTyped(db) && co.table == Company && 0 < Rank(t) && r in db
    ensures Names(Kept(db, co, to, Rank(t) - 1, r), PlanColumns(t), PlanTargets(db, co, t))
       <==> r.table == t && Doomed(db, co, r)
  {
    forall c | c in PlanColumns(t) ensures c.owner == t && (RELEASING < Rank(t) ==> c == Ref(User, Company)) {
      PlanOwner(t, c);
    }
    PlanPicks(db, co, t, db[r]);
    OthersAreKept(db, co, to, Rank(t) - 1, r, Ref(User, Company));
    hide PlanColumns, PlanTargets, Rank, Leaving;
  }

  /** A link goes with a statement exactly if what it points at is deleted by it. */
  lemma CascadeAdvances(db: Db, co: Row, to: Option<Row>, t: Table, matched: set<Row>, r: Row)
    requires WellTyped(db) && 0 < Rank(t) < DROPPING && r in db && matched <= db.Keys
    requires forall x :: x in db ==>
               (x in matched <==> !Gone(db, co, Rank(t) - 1, x) && x.table == t && Doomed(db, co, x))
    requires !Gone(db, co, Rank(t) - 1, r) && r !in matched
    ensures Names(Kept(db, co, to, Rank(t) - 1, r), CASCADING, matched) <==> Gone(db, co, Rank(t), r)
  {
    hide Struck, Doomed, Kept, Rank;
    var k := Rank(t);
    StruckAdvances(db, co, t, r);
    forall c | c in CASCADING
      ensures c in Kept(db, co, to, k - 1, r) <==> c in db[r]
      ensures c in db[r] ==> Kept(db, co, to, k - 1, r)[c] == db[r][c]
      ensures c in db[r] ==> (db[r][c] in matched <==> Struck(db, co, k, db[r][c]))
    {
      OthersAreKept(db, co, to, k - 1, r, c);
      if c in db[r] {
        StruckIsThere(db, co, k, db[r][c]);
      }
      if c in db[r] && db[r][c] in db {
        assert c.Target() != Link;
        OnlyLinksCascade(db, co, k - 1, db[r][c]);
        StruckAdvances(db, co, t, db[r][c]);
      }
    }
  }

  lemma GoneGrows(db: Db, co: Row, t: Table, r: Row)
    requires 0 < Rank(t) < DROPPING && r in db
    requires Gone(db, co, Rank(t) - 1, r) || (r.table == t && Doomed(db, co, r))
    ensures Gone(db, co, Rank(t), r)
  {
    StruckAdvances(db, co, t, r);
    forall c | c in db[r] ensures Struck(db, co, Rank(t) - 1, db[r][c]) ==> Struck(db, co, Rank(t), db[r][c]) {
      StruckAdvances(db, co, t, db[r][c]);
    }
    hide Struck, Doomed, Rank;
  }

  /** Which rows the delete of one table finds. */
  lemma FoundAtStage(db: Db, co: Row, to: Option<Row>, t: Table, r: Row)
    requires WellTyped(db) && co.table == Company && 0 < Rank(t) && r in db
    ensures r in Matching(Stage(db, co, to, Rank(t) - 1), PlanColumns(t), PlanTargets(db, co, t))
       <==> !Gone(db, co, Rank(t) - 1, r) && r.table == t && Doomed(db, co, r)
  {
    hide Rank, Gone, Doomed, Kept, PlanColumns, PlanTargets, WellTyped, Names;
    DoomedIsMatched(db, co, to, t, r);
  }

  /** The delete of one table takes the database one stage on. */
  lemma PlanAdvances(db: Db, co: Row, to: Option<Row>, t: Table)
    requires WellTyped(db) && co.table == Company && 0 < Rank(t) < DROPPING && Rank(t) != RELEASING
    ensures DeleteWhere(Stage(db, co, to, Rank(t) - 1), PlanColumns(t), PlanTargets(db, co, t))
         == Stage(db, co, to, Rank(t))
  {
    hide Gone, Rank, Names, WellTyped, Kept, PlanColumns, PlanTargets, Doomed, Matching;
    var k := Rank(t);
    var s := Stage(db, co, to, k - 1);
    var matched := Matching(s, PlanColumns(t), PlanTargets(db, co, t));
    forall r | r in db
      ensures r in matched <==> !Gone(db, co, k - 1, r) && r.table == t && Doomed(db, co, r)
    {
      FoundAtStage(db, co, to, t, r);
    }
    MatchingIsThere(s, PlanColumns(t), PlanTargets(db, co, t));
    forall r | r in db
      ensures (r in s && r !in matched && !Names(s[r], CASCADING, matched)) <==> !Gone(db, co, k, r)
      ensures Kept(db, co, to, k - 1, r) == Kept(db, co, to, k, r)
    {
      KeptAdvances(db, co, to, k, r);
      if r in s && r !in matched {
        CascadeAdvances(db, co, to, t, matched, r);
      } else {
        GoneGrows(db, co, t, r);
      }
    }
  }

  lemma MatchingIsThere(db: Db, columns: set<Column>, targets: set<Row>)
    ensures Matching(db, columns, targets) <= db.Keys
  {
  }

  /** Only the releasing statement changes what a row holds. */
  lemma KeptAdvances(db: Db, co: Row, to: Option<Row>, k: nat, r: Row)
    requires r in db && 0 < k && k != RELEASING
    ensures Kept(db, co, to, k - 1, r) == Kept(db, co, to, k, r)
  {
  }

  // ----------------------------------------------- the statements that go by row ids

  /** Matching before and after a change that keeps the rows matched. */
  lemma MatchingSame(db: Db, s: Db, columns: set<Column>, targets: set<Row>)
    requires forall r :: r in s ==> r in db && (Names(s[r], columns, targets) <==> Names(db[r], columns, targets))
    requires forall r :: r in db && Names(db[r], columns, targets) ==> r in s
    ensures Matching(s, columns, targets) == Matching(db, columns, targets)
  {
    hide Names;
  }

  lemma EventsByPlan(db: Db, co: Row)
    ensures EventsOf(db, co) == Matching(db, PlanColumns(Event), PlanTargets(db, co, Event))
  {
    hide Matching, UsersOf;
  }

  lemma EventsStay(db: Db, co: Row, k: nat, r: Row)
    requires WellTyped(db) && k < Rank(Event) && r in EventsOf(db, co)
    ensures r in db && !Gone(db, co, k, r)
  {
    MatchingTwo(db, Ref(Event, Company), UserRef(Event, Main), {co} + UsersOf(db, co), r);
    OnlyLinksCascade(db, co, k, r);
    hide Doomed, UsersOf, Names;
  }

  /** The event ids read half-way are those of the events there at the start. */
  lemma EventsAtStage(db: Db, co: Row, to: Option<Row>, k: nat)
    requires WellTyped(db) && k < Rank(Event)
    ensures Matching(Stage(db, co, to, k), PlanColumns(Event), PlanTargets(db, co, Event)) == EventsOf(db, co)
  {
    EventsByPlan(db, co);
    hide Gone, Names, WellTyped, UsersOf, PlanColumns, PlanTargets, EventsOf;
    forall r | r in EventsOf(db, co) ensures r in db && !Gone(db, co, k, r) {
      EventsStay(db, co, k, r);
    }
    MatchingSame(db, Stage(db, co, to, k), PlanColumns(Event), PlanTargets(db, co, Event));
  }

  lemma EventsAdvance(db: Db, co: Row, to: Option<Row>)
    requires WellTyped(db) && co.table == Company
    ensures Remove(Stage(db, co, to, 10), EventsOf(db, co)) == Stage(db, co, to, 11)
  {
    hide Remove, Stage, EventsOf, Matching, PlanColumns, PlanTargets, WellTyped;
    EventsAtStage(db, co, to, 10);
    PlanAdvances(db, co, to, Event);
  }

  /** A user found to leave is still there, and still names the company, until then. */
  lemma UsersStay(db: Db, co: Row, to: Option<Row>, r: Row)
    requires WellTyped(db) && r in db
    ensures Names(Kept(db, co, to, 18, r), {Ref(User, Company)}, {co}) <==> Names(db[r], {Ref(User, Company)}, {co})
    ensures Names(db[r], {Ref(User, Company)}, {co}) ==> !Gone(db, co, 18, r)
  {
    hide Kept, Gone, Doomed;
    OthersAreKept(db, co, to, 18, r, Ref(User, Company));
    if Names(db[r], {Ref(User, Company)}, {co}) {
      OnlyLinksCascade(db, co, 18, r);
    }
  }

  /** The user ids read at the start are those of the users there at the end. */
  lemma UsersAtStage(db: Db, co: Row, to: Option<Row>)
    requires WellTyped(db)
    ensures Matching(Stage(db, co, to, 18), {Ref(User, Company)}, {co}) == UsersOf(db, co)
  {
    hide Gone, Names, WellTyped, Kept, Matching;
    forall r | r in db
      ensures Names(Kept(db, co, to, 18, r), {Ref(User, Company)}, {co}) <==> Names(db[r], {Ref(User, Company)}, {co})
      ensures Names(db[r], {Ref(User, Company)}, {co}) ==> !Gone(db, co, 18, r)
    {
      UsersStay(db, co, to, r);
    }
    MatchingSame(db, Stage(db, co, to, 18), {Ref(User, Company)}, {co});
  }

  lemma UsersAdvance(db: Db, co: Row, to: Option<Row>)
    requires WellTyped(db) && co.table == Company
    ensures Remove(Stage(db, co, to, 18), UsersOf(db, co)) == Stage(db, co, to, 19)
  {
    hide Remove, Stage, UsersOf, Matching, WellTyped;
    UsersAtStage(db, co, to);
    PlanAdvances(db, co, to, User);
  }

  lemma NothingStruckByReleasing(db: Db, co: Row, r: Row)
    ensures Gone(db, co, RELEASING, r) <==> Gone(db, co, RELEASING - 1, r)
  {
    forall x ensures Struck(db, co, RELEASING, x) <==> Struck(db, co, RELEASING - 1, x) {
    }
    hide Struck;
  }

  /** No notice to a user who leaves is left by the time the users are released. */
  lemma NoNoticesLeft(db: Db, co: Row, to: Option<Row>)
    requires WellTyped(db) && co.table == Company
    ensures Matching(Repoint(Stage(db, co, to, RELEASING - 1), AllReleased(), UsersOf(db, co), to),
                     {UserRef(Notification, Main)}, UsersOf(db, co)) == {}
  {
    var users := UsersOf(db, co);
    forall r | r in db && Names(Repointed(db[r], AllReleased(), users, to), {UserRef(Notification, Main)}, users)
      ensures Gone(db, co, RELEASING - 1, r)
    {
      NoticeKept(db[r], users, to);
      NoticeStruck(db, co, r);
    }
    hide Gone, Names, Repointed, UsersOf, AllReleased;
  }

  lemma NoticeKept(refs: Refs, users: set<Row>, to: Option<Row>)
    requires Names(Repointed(refs, AllReleased(), users, to), {UserRef(Notification, Main)}, users)
    ensures Names(refs, {UserRef(Notification, Main)}, users)
  {
    var c := UserRef(Notification, Main);
    assert c !in AllReleased();
    hide AllReleased;
  }

  lemma NoticeStruck(db: Db, co: Row, r: Row)
    requires WellTyped(db) && r in db && Names(db[r], {UserRef(Notification, Main)}, UsersOf(db, co))
    ensures Gone(db, co, RELEASING - 1, r)
  {
    var c := UserRef(Notification, Main);
    assert c in db[r] && db[r][c] in UsersOf(db, co);
    assert r.table == Notification;
    assert c in PlanColumns(Notification);
    hide UsersOf, PlanColumns;
  }

  lemma ReleaseAdvances(db: Db, co: Row, to: Option<Row>)
    requires WellTyped(db) && co.table == Company
    ensures var users, s := UsersOf(db, co), Stage(db, co, to, RELEASING - 1);
      (if users == {} then s else Release(s, users, to)) == Stage(db, co, to, RELEASING)
  {
    hide Gone, Repointed, UsersOf, AllReleased, WellTyped, Matching, Remove;
    var users, s := UsersOf(db, co), Stage(db, co, to, RELEASING - 1);
    forall r ensures Gone(db, co, RELEASING, r) <==> Gone(db, co, RELEASING - 1, r) {
      NothingStruckByReleasing(db, co, r);
    }
    assert Repoint(s, AllReleased(), users, to) == Stage(db, co, to, RELEASING);
    if users == {} {
      forall r | r in s ensures Repointed(s[r], AllReleased(), {}, to) == s[r] {
        RepointNobody(s[r], AllReleased(), to);
      }
    } else {
      NoNoticesLeft(db, co, to);
      RemoveNothing(Repoint(s, AllReleased(), users, to));
    }
  }

  lemma RepointNobody(refs: Refs, columns: set<Column>, to: Option<Row>)
    ensures Repointed(refs, columns, {}, to) == refs
  {
  }

  lemma RemoveNothing(db: Db)
    ensures Remove(db, {}) == db
  {
  }

  lemma DropAdvances(db: Db, co: Row, to: Option<Row>)
    requires WellTyped(db) && co.table == Company
    ensures Remove(Stage(db, co, to, DROPPING - 1), {co}) == Stage(db, co, to, DROPPING)
  {
    hide Gone, Names, Kept, WellTyped;
    forall r | r in db
      ensures !Names(Kept(db, co, to, DROPPING - 1, r), CASCADING, {co})
      ensures Gone(db, co, DROPPING, r) <==> Gone(db, co, DROPPING - 1, r) || r == co
      ensures Kept(db, co, to, DROPPING - 1, r) == Kept(db, co, to, DROPPING, r)
    {
      KeptAdvances(db, co, to, DROPPING, r);
      CompanyGoes(db, co, to, r);
    }
  }

  lemma CompanyGoes(db: Db, co: Row, to: Option<Row>, r: Row)
    requires WellTyped(db) && co.table == Company && r in db
    ensures !Names(Kept(db, co, to, DROPPING - 1, r), CASCADING, {co})
    ensures Gone(db, co, DROPPING, r) <==> Gone(db, co, DROPPING - 1, r) || r == co
  {
    hide Kept, Struck;
    forall c | c in CASCADING
      ensures c in Kept(db, co, to, DROPPING - 1, r) ==> Kept(db, co, to, DROPPING - 1, r)[c] != co
      ensures c in db[r] ==> db[r][c] != co
    {
      OthersAreKept(db, co, to, DROPPING - 1, r, c);
      assert c.Target() != Company;
    }
    LastIsDropping(db, co, r);
  }

  lemma LastIsDropping(db: Db, co: Row, r: Row)
    requires r in db
    ensures forall x :: Struck(db, co, DROPPING, x) <==> Struck(db, co, DROPPING - 1, x) || (x == co && x in db)
  {
    forall t ensures Rank(t) < DROPPING {
    }
    hide Rank, Doomed;
  }
}
