/** What emptying a tenant keeps and leaves (app/demo_data.py). */
module PurgeLaws {
  import opened Outcomes
  import opened Schema
  import opened Purge

  /** Columns no statement of the purge goes by or rewrites. */
  predicate Untouched(c: Column) { !Deleting(c) && c !in AllReleased() && c !in CASCADING }

  /** Whoever takes over is there and is not leaving. */
  predicate Reassignable(db: Db, co: Row, to: Option<Row>) {
    to.Some? ==> to.value in db && to.value.table == User && to.value !in UsersOf(db, co)
  }

  /** Nothing that stays refers, by an untouched column, to something that goes. */
  ghost predicate Safe(db: Db, co: Row, n: nat) {
    forall r, c | r in db && c in db[r] && Untouched(c) ::
      Struck(db, co, n, db[r][c]) ==> Struck(db, co, n, r)
  }

  lemma ReleasedColumns(c: Column)
    ensures c in AllReleased() <==> c in RELEASED
  {
  }

  lemma UntouchedRefs(c: Column)
    requires InSchema(c) && c.Ref?
    ensures Untouched(c) <==>
              c in {Ref(Relief, Employee), Ref(Run, Rate), Ref(Item, Employee), Ref(Receipt, Expense),
                    Ref(Receipt, Company), Ref(Delivery, Item), Ref(Delivery, Batch), Ref(Access, Company),
                    Ref(Licence, Access)}
  {
    ReleasedColumns(c);
    hide AllReleased;
  }

  lemma UntouchedUserRefs(c: Column)
    requires InSchema(c) && c.UserRef?
    ensures Untouched(c) <==> c in {UserRef(Receipt, Main), UserRef(Access, Main), UserRef(Licence, Main)}
  {
    ReleasedColumns(c);
    hide AllReleased;
  }

  /** Rows are deleted before the rows they are deleted by. */
  lemma ChildFirst(c: Column)
    requires InSchema(c) && Deleting(c)
    ensures c.Target() in {Company, Run, Employee, User, Event}
    ensures 0 < Rank(c.owner) < DROPPING
    ensures c.Target() != Company ==> Rank(c.owner) < Rank(c.Target())
  {
  }

  /** Rows are deleted before the deletable rows their untouched columns name. */
  lemma UntouchedFirst(c: Column)
    requires InSchema(c) && Untouched(c)
    ensures c.Target() != Link && c.owner != Link && c.owner != Company
    ensures 0 < Rank(c.owner) && 0 < Rank(c.Target()) ==> Rank(c.owner) < Rank(c.Target())
    ensures Rank(c.owner) < DROPPING
  {
    if c.Ref? {
      UntouchedRefs(c);
    } else {
      UntouchedUserRefs(c);
    }
    hide Untouched;
  }

  // --------------------------------------------- foreign keys, statement by statement

  lemma DoomedBy(db: Db, co: Row, t: Row) returns (c: Column)
    requires WellTyped(db) && co.table == Company && Doomed(db, co, t)
    ensures c in PlanColumns(t.table) && c in db[t] && db[t][c] in Leaving(db, co)
    ensures db[t][c].table == Company ==> db[t][c] == co
    ensures db[t][c].table == User ==> db[t][c] in UsersOf(db, co)
    ensures db[t][c].table == c.Target()
  {
    c :| c in PlanColumns(t.table) && c in db[t] && db[t][c] in Leaving(db, co);
    LeavingByTable(db, co, db[t][c]);
    hide Leaving, UsersOf, PlanColumns;
  }

  lemma NamesBy(refs: Refs, columns: set<Column>, targets: set<Row>, c: Column)
    requires c in columns && c in refs && refs[c] in targets
    ensures Names(refs, columns, targets)
  {
  }

  /** What a row deleted by its company column names is the company. */
  lemma DoomedByCompany(db: Db, co: Row, t: Row)
    requires WellTyped(db) && co.table == Company && Doomed(db, co, t)
    requires PlanColumns(t.table) == {Ref(t.table, Company)}
    ensures t in Matching(db, {Ref(t.table, Company)}, {co})
  {
    var c := DoomedBy(db, co, t);
    hide Leaving, PlanColumns, WellTyped;
    NamesBy(db[t], {Ref(t.table, Company)}, {co}, c);
  }

  lemma DoomedEvent(db: Db, co: Row, t: Row)
    requires WellTyped(db) && co.table == Company && Doomed(db, co, t) && t.table == Event
    ensures t in EventsOf(db, co)
  {
    var c := DoomedBy(db, co, t);
    assert c == Ref(Event, Company) || c == UserRef(Event, Main);
    hide Leaving, PlanColumns, WellTyped, UsersOf;
    NamesBy(db[t], {Ref(Event, Company), UserRef(Event, Main)}, {co} + UsersOf(db, co), c);
  }

  /** A doomed run, employee, user or event is itself one of the rows deleted by. */
  lemma DoomedLeaves(db: Db, co: Row, t: Row)
    requires WellTyped(db) && co.table == Company && t.table in {Run, Employee, User, Event}
    requires Doomed(db, co, t)
    ensures t in Leaving(db, co)
  {
    hide Doomed, WellTyped, Leaving, Matching;
    LeavingByTable(db, co, t);
    if t.table == Event {
      DoomedEvent(db, co, t);
    } else {
      DoomedByCompany(db, co, t);
    }
  }

  lemma NoCompanyIsDoomed(db: Db, co: Row, t: Row)
    ensures t.table == Company ==> !Doomed(db, co, t)
  {
    hide Leaving;
  }

  lemma NoRateIsDoomed(db: Db, co: Row, t: Row)
    ensures t.table == Rate ==> !Doomed(db, co, t)
  {
    hide Leaving;
  }

  lemma StruckGrows(db: Db, co: Row, j: nat, k: nat, r: Row)
    requires j <= k && Struck(db, co, j, r)
    ensures Struck(db, co, k, r)
  {
    hide Doomed, Rank;
  }

  /** A row that names a struck row by a deleting column was struck before it. */
  lemma DeletingStrikes(db: Db, co: Row, k: nat, r: Row, c: Column)
    requires WellTyped(db) && co.table == Company && r in db && c in db[r] && Deleting(c)
    requires Struck(db, co, k, db[r][c])
    ensures Struck(db, co, k, r)
  {
    var t := db[r][c];
    ChildFirst(c);
    LeavingByTable(db, co, t);
    NoCompanyIsDoomed(db, co, t);
    if t.table != Company {
      DoomedLeaves(db, co, t);
    }
    assert t in Leaving(db, co);
    hide Leaving, Rank, WellTyped;
  }

  /** In a safe database a row that names a struck row by an untouched column was struck
      before it too. */
  lemma UntouchedStrikes(db: Db, co: Row, n: nat, k: nat, r: Row, c: Column)
    requires WellTyped(db) && co.table == Company && Safe(db, co, n) && k <= n
    requires r in db && c in db[r] && Untouched(c) && Struck(db, co, k, db[r][c])
    ensures Struck(db, co, k, r)
  {
    var t := db[r][c];
    UntouchedFirst(c);
    StruckGrows(db, co, k, n, t);
    assert Struck(db, co, n, r);
    NoCompanyIsDoomed(db, co, t);
    RankedIfDoomed(db, co, r);
    RankedIfDoomed(db, co, t);
    hide Doomed, Rank, Untouched, Safe;
  }

  lemma RankedIfDoomed(db: Db, co: Row, r: Row)
    requires Doomed(db, co, r)
    ensures 0 < Rank(r.table)
  {
    var c :| c in PlanColumns(r.table) && c in db[r] && db[r][c] in Leaving(db, co);
    PlanOwner(r.table, c);
  }

  /** A reference that a stage keeps leads to a row that the stage keeps. */
  lemma ReferenceKept(db: Db, co: Row, to: Option<Row>, n: nat, k: nat, r: Row, c: Column)
    requires WellTyped(db) && Integrity(db) && co.table == Company && Reassignable(db, co, to)
    requires Safe(db, co, n) && k <= n
    requires r in db && !Gone(db, co, k, r) && c in Kept(db, co, to, k, r)
    ensures var t := Kept(db, co, to, k, r)[c]; t in db && !Gone(db, co, k, t)
  {
    var t := Kept(db, co, to, k, r)[c];
    if c in db[r] && t == db[r][c] && !(RELEASING <= k && c in AllReleased() && t in UsersOf(db, co)) {
      NeverALink(c);
      OnlyLinksCascade(db, co, k, t);
      if Struck(db, co, k, t) {
        if Deleting(c) {
          DeletingStrikes(db, co, k, r, c);
        } else if c in AllReleased() {
          ReleasedInTime(db, co, k, t, c);
        } else if c !in CASCADING {
          UntouchedStrikes(db, co, n, k, r, c);
        }
        assert false;
      }
    } else {
      assert to.Some? && t == to.value;
      OnlyLinksCascade(db, co, k, t);
      HeirIsNotStruck(db, co, k, t);
    }
  }

  lemma ReleasedInTime(db: Db, co: Row, k: nat, t: Row, c: Column)
    requires WellTyped(db) && co.table == Company && c in AllReleased() && t.table == c.Target()
    requires Struck(db, co, k, t)
    ensures RELEASING <= k && t in UsersOf(db, co)
  {
    ReleasedAreUserRefs(c);
    assert Doomed(db, co, t) && Rank(User) <= k;
    DoomedLeaves(db, co, t);
    LeavingByTable(db, co, t);
    hide Doomed, Leaving, UsersOf, AllReleased;
  }

  lemma HeirIsNotStruck(db: Db, co: Row, k: nat, t: Row)
    requires WellTyped(db) && co.table == Company && t.table == User && t !in UsersOf(db, co)
    ensures !Struck(db, co, k, t)
  {
    if Doomed(db, co, t) {
      DoomedLeaves(db, co, t);
      LeavingByTable(db, co, t);
      assert false;
    }
    hide Doomed, Leaving, UsersOf;
  }

  /** Every foreign key is valid after each statement of a safe purge, whoever takes over. */
  lemma StageIntegrity(db: Db, co: Row, to: Option<Row>, n: nat, k: nat)
    requires WellTyped(db) && Integrity(db) && co.table == Company && Reassignable(db, co, to)
    requires Safe(db, co, n) && k <= n
    ensures Integrity(Stage(db, co, to, k))
  {
    hide Gone, Kept, WellTyped, Safe, Reassignable;
    var s := Stage(db, co, to, k);
    forall r, c | r in s && c in s[r] ensures s[r][c] in s {
      ReferenceKept(db, co, to, n, k, r, c);
    }
  }

  /** The whole purge keeps the foreign keys valid exactly on safe databases. */
  lemma IntegrityIffSafe(db: Db, co: Row, to: Option<Row>, n: nat)
    requires WellTyped(db) && Integrity(db) && co.table == Company && Reassignable(db, co, to)
    ensures Integrity(Stage(db, co, to, n)) <==> Safe(db, co, n)
  {
    hide Gone, Kept, WellTyped, Struck, Untouched, Reassignable;
    if Safe(db, co, n) {
      StageIntegrity(db, co, to, n, n);
    } else {
      var r, c :| r in db && c in db[r] && Untouched(c) && Struck(db, co, n, db[r][c]) && !Struck(db, co, n, r);
      LeftDangling(db, co, to, n, r, c);
      assert Stage(db, co, to, n)[r][c] !in Stage(db, co, to, n);
    }
  }

  lemma UntouchedKept(db: Db, co: Row, to: Option<Row>, n: nat, r: Row, c: Column)
    requires r in db && c in db[r] && c !in AllReleased()
    ensures c in Kept(db, co, to, n, r) && Kept(db, co, to, n, r)[c] == db[r][c]
  {
    hide AllReleased, UsersOf;
  }

  /** A surviving row with an untouched column into a struck row is left dangling. */
  lemma LeftDangling(db: Db, co: Row, to: Option<Row>, n: nat, r: Row, c: Column)
    requires WellTyped(db) && co.table == Company
    requires r in db && c in db[r] && Untouched(c) && Struck(db, co, n, db[r][c]) && !Struck(db, co, n, r)
    ensures r in Stage(db, co, to, n) && c in Stage(db, co, to, n)[r]
    ensures Stage(db, co, to, n)[r][c] == db[r][c] && db[r][c] !in Stage(db, co, to, n)
  {
    UntouchedFirst(c);
    OnlyLinksCascade(db, co, n, r);
    UntouchedKept(db, co, to, n, r, c);
    hide Struck, Untouched, WellTyped, Kept;
  }

  /** Within the release too: after any number of its column updates every foreign key is
      valid, as long as whoever takes over is still there. */
  lemma ReleasingKeepsIntegrity(s: Db, users: set<Row>, to: Option<Row>, i: nat)
    requires Integrity(s) && (to.Some? ==> to.value in s) && i <= |RELEASED|
    ensures Integrity(Repoint(s, ReleasedBefore(i), users, to))
  {
    hide ReleasedBefore;
    var t := Repoint(s, ReleasedBefore(i), users, to);
    forall r, c | r in t && c in t[r] ensures t[r][c] in t {
      assert t[r][c] == s[r][c] || (to.Some? && t[r][c] == to.value);
    }
  }

  /** Whoever takes over is there at every stage. */
  lemma HeirStays(db: Db, co: Row, to: Option<Row>, k: nat)
    requires WellTyped(db) && co.table == Company && Reassignable(db, co, to) && to.Some?
    ensures to.value in Stage(db, co, to, k)
  {
    hide Kept, Struck, UsersOf;
    HeirIsNotStruck(db, co, k, to.value);
    OnlyLinksCascade(db, co, k, to.value);
  }

  // ----------------------------------------------- what goes, what stays, and as what

  /** If the company row is kept, only receipts and access requests may still name it. */
  lemma WhoStillNamesTheCompany(db: Db, co: Row, to: Option<Row>, r: Row, c: Column)
    requires WellTyped(db) && co.table == Company && (to.Some? ==> to.value.table == User)
    requires var s: Db := Stage(db, co, to, DROPPING - 1); r in s && c in s[r] && s[r][c] == co
    ensures c == Ref(Receipt, Company) || c == Ref(Access, Company)
  {
    KeptComesFrom(db, co, to, DROPPING - 1, r, c);
    hide Gone, Kept, Untouched, Deleting, AllReleased;
    if db[r][c] == co {
      if Deleting(c) {
        CompanyNamersAreStruck(db, co, r, c);
        assert false;
      }
      NamersOfCompanies(c);
    }
  }

  lemma NamersOfCompanies(c: Column)
    requires InSchema(c) && c.Target() == Company
    ensures Deleting(c) || c == Ref(Receipt, Company) || c == Ref(Access, Company)
  {
  }

  lemma KeptComesFrom(db: Db, co: Row, to: Option<Row>, k: nat, r: Row, c: Column)
    requires r in db && c in Kept(db, co, to, k, r)
    ensures c in db[r]
    ensures Kept(db, co, to, k, r)[c] == db[r][c] || (to.Some? && Kept(db, co, to, k, r)[c] == to.value)
  {
    hide AllReleased, UsersOf;
  }

  lemma CompanyNamersAreStruck(db: Db, co: Row, r: Row, c: Column)
    requires WellTyped(db) && co.table == Company && r in db && c in db[r] && db[r][c] == co && Deleting(c)
    ensures Gone(db, co, DROPPING - 1, r)
  {
    ChildFirst(c);
    LeavingByTable(db, co, co);
    assert Doomed(db, co, r);
    hide Leaving, Rank;
  }

  /** After a safe purge that drops the company row, no foreign key names it. */
  lemma NobodyNamesTheCompany(db: Db, co: Row, to: Option<Row>, r: Row, c: Column)
    requires WellTyped(db) && Integrity(db) && co.table == Company && Reassignable(db, co, to)
    requires Safe(db, co, DROPPING) && r in Stage(db, co, to, DROPPING) && c in Stage(db, co, to, DROPPING)[r]
    ensures Stage(db, co, to, DROPPING)[r][c] != co
  {
    StageIntegrity(db, co, to, DROPPING, DROPPING);
    hide WellTyped, Safe, Reassignable, Kept, Doomed;
    assert co !in Stage(db, co, to, DROPPING);
  }

  /** The company a row belongs to: its own company column, else through its run, else
      through its user. */
  function Tenant(db: Db, r: Row): Option<Row>
    requires r in db
  {
    if Ref(r.table, Company) in db[r] then Some(db[r][Ref(r.table, Company)])
    else if Ref(r.table, Run) in db[r] then CompanyOf(db, db[r][Ref(r.table, Run)])
    else if UserRef(r.table, Main) in db[r] then CompanyOf(db, db[r][UserRef(r.table, Main)])
    else None
  }

  function CompanyOf(db: Db, x: Row): Option<Row> {
    if x in db && Ref(x.table, Company) in db[x] then Some(db[x][Ref(x.table, Company)]) else None
  }

  /** The columns that tie a row to others of its tenant. */
  predicate Binding(c: Column) {
    || c in {Ref(Delivery, Item), Ref(Delivery, Batch), Ref(Item, Employee)}
    || (Deleting(c) && c.Target() != Company)
  }

  /** Rows bound to a row of some tenant belong to that tenant. */
  ghost predicate Coherent(db: Db) {
    forall r, c | r in db && c in db[r] && Binding(c) && db[r][c] in db ::
      Tenant(db, db[r][c]).Some? ==> Tenant(db, r) == Tenant(db, db[r][c])
  }

  /** In a coherent database the purge deletes rows of the tenant only. */
  lemma DoomedBelongs(db: Db, co: Row, r: Row)
    requires WellTyped(db) && Integrity(db) && Coherent(db) && co.table == Company
    requires Doomed(db, co, r)
    ensures Tenant(db, r) == Some(co)
  {
    var c := DoomedBy(db, co, r);
    var t := db[r][c];
    if c.Target() == Company {
      assert c == Ref(r.table, Company);
    } else {
      LeaverBelongs(db, co, t);
      assert Binding(c);
    }
    hide Tenant, Doomed, Leaving, PlanColumns, WellTyped;
  }

  lemma CompanyColumnDecides(db: Db, co: Row, t: Row)
    requires t in Matching(db, {Ref(t.table, Company)}, {co})
    ensures t in db && Tenant(db, t) == Some(co) && CompanyOf(db, t) == Some(co)
  {
  }

  lemma LeaverBelongs(db: Db, co: Row, t: Row)
    requires WellTyped(db) && Coherent(db) && co.table == Company
    requires t in Leaving(db, co) && t.table != Company
    ensures t in db && Tenant(db, t) == Some(co)
  {
    LeavingByTable(db, co, t);
    if t.table == Event {
      EventBelongs(db, co, t);
    } else {
      hide Matching, Tenant, CompanyOf, WellTyped, Coherent;
      CompanyColumnDecides(db, co, t);
    }
  }

  lemma EventBelongs(db: Db, co: Row, t: Row)
    requires WellTyped(db) && Coherent(db) && co.table == Company
    requires t in EventsOf(db, co) && t.table == Event
    ensures t in db && Tenant(db, t) == Some(co)
  {
    var company, actor := Ref(Event, Company), UserRef(Event, Main);
    WhoseEvent(db, co, t);
    if company in db[t] && db[t][company] == co {
    } else {
      LeavingByTable(db, co, db[t][actor]);
      BindingActor();
      hide UsersOf, Tenant, Binding, Leaving, Matching;
      CompanyColumnDecides(db, co, db[t][actor]);
    }
  }

  lemma BindingActor()
    ensures Binding(UserRef(Event, Main))
  {
  }

  lemma WhoseEvent(db: Db, co: Row, t: Row)
    requires WellTyped(db) && co.table == Company && t in EventsOf(db, co)
    ensures t in db
    ensures (Ref(Event, Company) in db[t] && db[t][Ref(Event, Company)] == co)
         || (UserRef(Event, Main) in db[t]
             && db[t][UserRef(Event, Main)] in Matching(db, {Ref(User, Company)}, {co}))
  {
    var c :| c in {Ref(Event, Company), UserRef(Event, Main)} && c in db[t] && db[t][c] in {co} + UsersOf(db, co);
    MatchingOne(db, Ref(User, Company), {co}, db[t][c]);
    assert db[t][c].table == c.Target();
    if c == Ref(Event, Company) {
      assert db[t][c] == co;
    } else {
      assert db[t][c] in UsersOf(db, co);
    }
  }

  /** The row belongs to another tenant than co, or to none; a link does if what it points
      at does. */
  predicate Elsewhere(db: Db, co: Row, r: Row) {
    && r in db && r != co
    && (if r.table == Link then forall c | c in db[r] && db[r][c] in db :: Tenant(db, db[r][c]) != Some(co)
        else Tenant(db, r) != Some(co))
  }

  lemma ElsewhereStays(db: Db, co: Row, n: nat, r: Row)
    requires WellTyped(db) && Integrity(db) && Coherent(db) && co.table == Company && Elsewhere(db, co, r)
    ensures !Gone(db, co, n, r)
  {
    hide Doomed, Tenant, WellTyped, Coherent, Rank;
    if r.table == Link {
      LinkNotDoomed(db, co, r);
      forall c | c in db[r] && c in CASCADING ensures !Struck(db, co, n, db[r][c]) {
        CascadeTarget(db, r, c);
        if Doomed(db, co, db[r][c]) {
          DoomedBelongs(db, co, db[r][c]);
        }
      }
    } else {
      if Doomed(db, co, r) {
        DoomedBelongs(db, co, r);
      }
      OnlyLinksCascade(db, co, n, r);
    }
  }

  lemma LinkNotDoomed(db: Db, co: Row, r: Row)
    ensures r.table == Link ==> !Doomed(db, co, r)
  {
    hide Leaving;
  }

  lemma CascadeTarget(db: Db, r: Row, c: Column)
    requires WellTyped(db) && r in db && c in db[r] && c in CASCADING
    ensures db[r][c].table != Company
  {
    assert db[r][c].table == c.Target() && c.Target() != Company;
  }

  /** The column named a user who left. */
  predicate NamedALeaver(db: Db, co: Row, r: Row, c: Column)
    requires r in db && c in db[r]
  {
    c in AllReleased() && db[r][c] in UsersOf(db, co)
  }

  /** Rows of other tenants, links included, come through the purge. Every column is as it
      was, but that those which named a user who left name, once the users are released,
      whoever takes over, or nobody. */
  lemma OtherTenantsKept(db: Db, co: Row, to: Option<Row>, n: nat, r: Row)
    requires WellTyped(db) && Integrity(db) && Coherent(db) && co.table == Company && Elsewhere(db, co, r)
    ensures r in Stage(db, co, to, n)
    ensures forall c :: c in Stage(db, co, to, n)[r] ==> c in db[r]
    ensures forall c :: c in db[r] && !(RELEASING <= n && NamedALeaver(db, co, r, c)) ==>
              c in Stage(db, co, to, n)[r] && Stage(db, co, to, n)[r][c] == db[r][c]
    ensures forall c :: c in db[r] && RELEASING <= n && NamedALeaver(db, co, r, c) ==>
              if to.Some? then c in Stage(db, co, to, n)[r] && Stage(db, co, to, n)[r][c] == to.value
              else c !in Stage(db, co, to, n)[r]
  {
    ElsewhereStays(db, co, n, r);
    hide Gone, WellTyped, Coherent, Elsewhere, AllReleased, UsersOf;
  }

  /** No row of a table the purge never touches names a row that goes. */
  ghost predicate OutsidersClear(db: Db, co: Row, n: nat) {
    forall r, c | r in db && c in db[r] && r.table in {Relief, Receipt, Access, Licence} :: !Struck(db, co, n, db[r][c])
  }

  /** A coherent database is safe to purge exactly when no tax-relief approval, expense
      receipt, access request or licence names anything that goes. */
  lemma CoherentIsSafe(db: Db, co: Row, n: nat)
    requires WellTyped(db) && Integrity(db) && Coherent(db) && co.table == Company
    ensures Safe(db, co, n) <==> OutsidersClear(db, co, n)
  {
    hide Untouched, Struck, Coherent, WellTyped;
    if Safe(db, co, n) {
      forall r, c | r in db && c in db[r] && r.table in {Relief, Receipt, Access, Licence}
        ensures !Struck(db, co, n, db[r][c])
      {
        OutsiderStays(db, co, n, r, c);
      }
    }
    if OutsidersClear(db, co, n) {
      forall r, c | r in db && c in db[r] && Untouched(c) && Struck(db, co, n, db[r][c])
        ensures Struck(db, co, n, r)
      {
        if r.table in {Relief, Receipt, Access, Licence} {
          assert false;
        }
        InsiderGoes(db, co, n, r, c);
      }
    }
  }

  lemma OutsiderStays(db: Db, co: Row, n: nat, r: Row, c: Column)
    requires WellTyped(db) && co.table == Company
    requires r in db && c in db[r] && r.table in {Relief, Receipt, Access, Licence}
    ensures Untouched(c) && !Struck(db, co, n, r)
  {
    if c.Ref? {
      UntouchedRefs(c);
    } else {
      UntouchedUserRefs(c);
    }
    assert PlanColumns(r.table) == {};
    hide Untouched, Leaving;
  }

  lemma InsiderGoes(db: Db, co: Row, n: nat, r: Row, c: Column)
    requires WellTyped(db) && Integrity(db) && Coherent(db) && co.table == Company
    requires r in db && c in db[r] && r.table !in {Relief, Receipt, Access, Licence}
    requires Untouched(c) && Struck(db, co, n, db[r][c])
    ensures Struck(db, co, n, r)
  {
    var t := db[r][c];
    StruckInside(db, co, n, t, c);
    UntouchedFirst(c);
    InsideBindings(c);
    DoomedBelongs(db, co, t);
    hide Untouched, Doomed, Tenant, InSchema, Leaving, Deleting, Rank;
    assert Binding(c) && Tenant(db, t).Some?;
    assert Tenant(db, r) == Some(co);
    TenantIsDoomed(db, co, r);
    RankedIfDoomed(db, co, r);
    RankedIfDoomed(db, co, t);
  }

  lemma StruckInside(db: Db, co: Row, n: nat, t: Row, c: Column)
    requires InSchema(c) && Untouched(c) && c.owner !in {Relief, Receipt, Access, Licence} && t.table == c.Target()
    requires co.table == Company && Struck(db, co, n, t)
    ensures c != Ref(Run, Rate) && Doomed(db, co, t) && Rank(t.table) <= n
  {
    NoRateIsDoomed(db, co, t);
    if c != Ref(Run, Rate) {
      InsideBindings(c);
    }
    hide Untouched, Leaving, Doomed;
  }

  lemma InsideBindings(c: Column)
    requires InSchema(c) && Untouched(c) && c.owner !in {Relief, Receipt, Access, Licence} && c != Ref(Run, Rate)
    ensures c in {Ref(Delivery, Item), Ref(Delivery, Batch), Ref(Item, Employee)} && Binding(c)
  {
    if c.Ref? {
      UntouchedRefs(c);
    } else {
      UntouchedUserRefs(c);
    }
    hide Untouched;
  }

  lemma TenantIsDoomed(db: Db, co: Row, r: Row)
    requires WellTyped(db) && Integrity(db) && co.table == Company
    requires r in db && r.table in {Delivery, Item} && Tenant(db, r) == Some(co)
    ensures Doomed(db, co, r)
  {
    var c := Ref(r.table, Run);
    hide RunsOf, Leaving, Tenant, CompanyOf, Doomed, InSchema;
    OnlyThroughTheRun(db, r);
    var x := db[r][c];
    assert x.table == c.Target() == Run;
    RunOfCompany(db, co, x);
    LeavingByTable(db, co, x);
    assert c in PlanColumns(r.table);
    DoomedIfNames(db, co, r);
    NamesBy(db[r], PlanColumns(r.table), Leaving(db, co), c);
  }

  lemma DoomedIfNames(db: Db, co: Row, r: Row)
    ensures r in db && Names(db[r], PlanColumns(r.table), Leaving(db, co)) ==> Doomed(db, co, r)
  {
    hide Names, PlanColumns, Leaving;
  }

  lemma OnlyThroughTheRun(db: Db, r: Row)
    requires WellTyped(db) && r in db && r.table in {Delivery, Item}
    ensures Tenant(db, r) == if Ref(r.table, Run) in db[r] then CompanyOf(db, db[r][Ref(r.table, Run)]) else None
  {
    assert !InSchema(Ref(r.table, Company)) && Ref(r.table, Company) !in db[r];
    assert !InSchema(UserRef(r.table, Main)) && UserRef(r.table, Main) !in db[r];
    hide CompanyOf;
  }

  lemma RunOfCompany(db: Db, co: Row, x: Row)
    requires CompanyOf(db, x) == Some(co) && x.table == Run
    ensures x in RunsOf(db, co)
  {
    NamesBy(db[x], {Ref(Run, Company)}, {co}, Ref(Run, Company));
  }

  // ------------------------------------------------------------- platform users who go

  /** No receipt, access request or licence says one of the users did something. */
  ghost predicate NoOutsiderNames(db: Db, users: set<Row>) {
    forall r, c | r in db && c in db[r]
                  && c in {UserRef(Receipt, Main), UserRef(Access, Main), UserRef(Licence, Main)} ::
      db[r][c] !in users
  }

  lemma UserColumns(c: Column)
    requires InSchema(c) && c.Target() == User
    ensures c in AllReleased() || c == UserRef(Notification, Main)
         || c in {UserRef(Receipt, Main), UserRef(Access, Main), UserRef(Licence, Main)}
    ensures c in {UserRef(Receipt, Main), UserRef(Access, Main), UserRef(Licence, Main)} ==> c !in AllReleased()
  {
    ReleasedColumns(c);
    hide AllReleased;
  }

  /** Deleting rows no link points at deletes just those rows. */
  lemma NothingCascades(db: Db, rows: set<Row>)
    requires forall r, c :: r in db && c in db[r] && c in CASCADING ==> db[r][c].table == c.Target()
    requires forall x :: x in rows ==> x.table != Item && x.table != Delivery
    ensures Remove(db, rows) == map r | r in db && r !in rows :: db[r]
  {
  }

  lemma RepointKeepsOthers(db: Db, users: set<Row>, to: Option<Row>, r: Row, c: Column)
    requires r in db && c !in AllReleased()
    ensures c in Repointed(db[r], AllReleased(), users, to) <==> c in db[r]
    ensures c in db[r] ==> Repointed(db[r], AllReleased(), users, to)[c] == db[r][c]
  {
    hide AllReleased;
  }

  lemma RepointKeepsLinks(db: Db, users: set<Row>, to: Option<Row>, r: Row, c: Column)
    requires WellTyped(db) && r in db && c in CASCADING && c in Repointed(db[r], AllReleased(), users, to)
    ensures Repointed(db[r], AllReleased(), users, to)[c].table == c.Target()
  {
    if c in AllReleased() {
      ReleasedAreUserRefs(c);
    }
    RepointKeepsOthers(db, users, to, r, c);
    hide AllReleased, Repointed, InSchema;
  }

  /** The notices deleted by the release are those that named a user at the start. */
  lemma NoticesReleased(db: Db, users: set<Row>, to: Option<Row>)
    requires WellTyped(db)
    ensures Matching(Repoint(db, AllReleased(), users, to), {UserRef(Notification, Main)}, users)
         == Matching(db, {UserRef(Notification, Main)}, users)
  {
    forall r | r in db
      ensures Names(Repointed(db[r], AllReleased(), users, to), {UserRef(Notification, Main)}, users)
         <==> Names(db[r], {UserRef(Notification, Main)}, users)
    {
      ReleasedColumns(UserRef(Notification, Main));
      RepointKeepsOthers(db, users, to, r, UserRef(Notification, Main));
      hide AllReleased, Repointed;
    }
    hide Names, Repointed, AllReleased;
    MatchingSame(db, Repoint(db, AllReleased(), users, to), {UserRef(Notification, Main)}, users);
  }

  /** The rows left by releasing and deleting some users. */
  lemma LeftByRelease(db: Db, users: set<Row>, to: Option<Row>)
    requires WellTyped(db) && (forall u :: u in users ==> u.table == User)
    ensures Remove(Release(db, users, to), users)
         == map r | r in db && r !in users && r !in Matching(db, {UserRef(Notification, Main)}, users) ::
              Repointed(db[r], AllReleased(), users, to)
  {
    var notices := Matching(db, {UserRef(Notification, Main)}, users);
    forall x | x in notices ensures x.table == Notification {
      MatchingOne(db, UserRef(Notification, Main), users, x);
    }
    forall r, c | r in db && c in CASCADING && c in Repointed(db[r], AllReleased(), users, to)
      ensures Repointed(db[r], AllReleased(), users, to)[c].table == c.Target()
    {
      RepointKeepsLinks(db, users, to, r, c);
    }
    NoticesReleased(db, users, to);
    hide Matching, Repointed, AllReleased, WellTyped, Remove;
    NothingCascades(Repoint(db, AllReleased(), users, to), notices);
    NothingCascades(Release(db, users, to), users);
  }

  /** Removing platform users keeps the foreign keys valid exactly if no row of a table
      the release never touches names them. */
  lemma ReleaseIntegrity(db: Db, users: set<Row>, to: Option<Row>)
    requires WellTyped(db) && Integrity(db) && (forall u :: u in users ==> u in db && u.table == User)
    requires to.Some? ==> to.value in db && to.value.table == User && to.value !in users
    ensures Integrity(Remove(Release(db, users, to), users)) <==> NoOutsiderNames(db, users)
  {
    LeftByRelease(db, users, to);
    var left := Remove(Release(db, users, to), users);
    hide Remove, Release, Repointed, WellTyped;
    if NoOutsiderNames(db, users) {
      forall r, c | r in left && c in left[r] ensures left[r][c] in left {
        HeldReference(db, users, to, r, c);
      }
    } else {
      var r, c :| r in db && c in db[r] && db[r][c] in users
                  && c in {UserRef(Receipt, Main), UserRef(Access, Main), UserRef(Licence, Main)};
      OutsiderDangles(db, users, to, r, c);
      assert left[r][c] !in left;
    }
  }

  lemma ReleasedValue(refs: Refs, users: set<Row>, to: Option<Row>, c: Column)
    requires c in Repointed(refs, AllReleased(), users, to)
    ensures c in refs
    ensures var t := Repointed(refs, AllReleased(), users, to)[c];
      (t == refs[c] && !(c in AllReleased() && t in users)) || (to.Some? && t == to.value)
  {
    hide AllReleased;
  }

  lemma NeverANotice(c: Column)
    requires InSchema(c)
    ensures c.Target() != Notification
  {
  }

  lemma NoticeMatched(db: Db, users: set<Row>, r: Row)
    requires r in db
    ensures r !in Matching(db, {UserRef(Notification, Main)}, users) && UserRef(Notification, Main) in db[r]
        ==> db[r][UserRef(Notification, Main)] !in users
  {
  }

  /** What a row that stays refers to stays. */
  lemma HeldReference(db: Db, users: set<Row>, to: Option<Row>, r: Row, c: Column)
    requires WellTyped(db) && Integrity(db) && NoOutsiderNames(db, users)
    requires forall u :: u in users ==> u.table == User
    requires to.Some? ==> to.value in db && to.value.table == User && to.value !in users
    requires r in db && r !in Matching(db, {UserRef(Notification, Main)}, users)
    requires c in Repointed(db[r], AllReleased(), users, to)
    ensures var t := Repointed(db[r], AllReleased(), users, to)[c];
      t in db && t !in users && t !in Matching(db, {UserRef(Notification, Main)}, users)
  {
    var refs := Repointed(db[r], AllReleased(), users, to);
    var t := refs[c];
    MatchingOne(db, UserRef(Notification, Main), users, t);
    ReleasedValue(db[r], users, to, c);
    assert db[r][c].table == c.Target();
    hide AllReleased, Repointed, Matching, InSchema;
    NoticeMatched(db, users, r);
    NeverANotice(c);
    if c.Target() == User {
      UserColumns(c);
    }
  }

  lemma OutsiderDangles(db: Db, users: set<Row>, to: Option<Row>, r: Row, c: Column)
    requires WellTyped(db) && (forall u :: u in users ==> u.table == User)
    requires r in db && c in db[r] && db[r][c] in users
    requires c in {UserRef(Receipt, Main), UserRef(Access, Main), UserRef(Licence, Main)}
    ensures r !in users && r !in Matching(db, {UserRef(Notification, Main)}, users)
    ensures c in Repointed(db[r], AllReleased(), users, to)
    ensures Repointed(db[r], AllReleased(), users, to)[c] == db[r][c]
  {
    hide AllReleased, Repointed, Matching, WellTyped;
    NotReleased(c);
    RepointKeepsOthers(db, users, to, r, c);
    MatchingOne(db, UserRef(Notification, Main), users, r);
    ColumnOfRow(db, r, c);
  }

  lemma ColumnOfRow(db: Db, r: Row, c: Column)
    requires WellTyped(db) && r in db && c in db[r]
    ensures r.table == c.owner
  {
    hide InSchema;
  }

  lemma NotReleased(c: Column)
    requires c in {UserRef(Receipt, Main), UserRef(Access, Main), UserRef(Licence, Main)}
    ensures c !in AllReleased()
  {
    hide AllReleased;
    ReleasedColumns(c);
  }

  // ---------------------------------------------------------------- one that is not safe

  /** Any receipt of an expense of the tenant is left pointing at nothing. */
  lemma ReceiptsDangle(db: Db, co: Row, to: Option<Row>, expense: Row, receipt: Row)
    requires WellTyped(db) && co.table == Company && expense in db && receipt in db
    requires Ref(Expense, Company) in db[expense] && db[expense][Ref(Expense, Company)] == co
    requires Ref(Receipt, Expense) in db[receipt] && db[receipt][Ref(Receipt, Expense)] == expense
    ensures !Integrity(Stage(db, co, to, DROPPING - 1))
  {
    hide WellTyped, Stage;
    TablesOf(db, expense, receipt);
    ExpenseGoes(db, co, expense);
    OutsiderStays(db, co, DROPPING - 1, receipt, Ref(Receipt, Expense));
    LeftDangling(db, co, to, DROPPING - 1, receipt, Ref(Receipt, Expense));
    var s := Stage(db, co, to, DROPPING - 1);
    assert s[receipt][Ref(Receipt, Expense)] !in s;
  }

  lemma TablesOf(db: Db, expense: Row, receipt: Row)
    requires WellTyped(db) && expense in db && receipt in db
    requires Ref(Expense, Company) in db[expense] && Ref(Receipt, Expense) in db[receipt]
    ensures expense.table == Expense && receipt.table == Receipt
  {
    hide InSchema;
  }

  lemma ExpenseGoes(db: Db, co: Row, expense: Row)
    requires WellTyped(db) && co.table == Company && expense in db && expense.table == Expense
    requires Ref(Expense, Company) in db[expense] && db[expense][Ref(Expense, Company)] == co
    ensures Struck(db, co, DROPPING - 1, expense)
  {
    hide WellTyped;
    LeavingByTable(db, co, co);
    assert Ref(Expense, Company) in PlanColumns(Expense);
    hide Leaving, PlanColumns;
    NamesBy(db[expense], PlanColumns(Expense), Leaving(db, co), Ref(Expense, Company));
  }

  // The smallest such database: a company, an expense of its own and the receipt.

  const TENANT := Row(Company, 1)
  const SPENT := Row(Expense, 1)
  const PROOF := Row(Receipt, 1)

  function OfExpense(): Refs { map[Ref(Expense, Company) := TENANT] }

  function OfReceipt(): Refs { map[Ref(Receipt, Expense) := SPENT, Ref(Receipt, Company) := TENANT] }

  function JustTenant(): Db { map[TENANT := map[]] }

  function WithExpense(): Db { JustTenant()[SPENT := OfExpense()] }

  function WithReceipt(): Db { WithExpense()[PROOF := OfReceipt()] }

  lemma TenantFits()
    ensures WellTyped(JustTenant()) && Integrity(JustTenant()) && TENANT in JustTenant() && SPENT !in JustTenant()
  {
  }

  lemma ExpenseFits()
    ensures WellTyped(WithExpense()) && Integrity(WithExpense())
    ensures TENANT in WithExpense() && SPENT in WithExpense() && PROOF !in WithExpense()
  {
    TenantFits();
    assert PROOF !in JustTenant();
    hide WellTyped, Integrity, JustTenant;
    RowAdded(JustTenant(), SPENT, OfExpense());
  }

  lemma ReceiptFits()
    ensures WellTyped(WithReceipt()) && Integrity(WithReceipt())
    ensures SPENT in WithReceipt() && WithReceipt()[SPENT] == OfExpense()
    ensures PROOF in WithReceipt() && WithReceipt()[PROOF] == OfReceipt()
  {
    hide WellTyped, Integrity, JustTenant;
    ExpenseFits();
    assert WithExpense()[SPENT] == OfExpense();
    hide WithExpense;
    RowAdded(WithExpense(), PROOF, OfReceipt());
  }

  lemma ReceiptLeftDangling(to: Option<Row>)
    ensures WellTyped(WithReceipt()) && Integrity(WithReceipt())
    ensures !Integrity(Stage(WithReceipt(), TENANT, to, DROPPING - 1))
  {
    hide Stage, WellTyped, Integrity, WithReceipt;
    ReceiptFits();
    ReceiptsDangle(WithReceipt(), TENANT, to, SPENT, PROOF);
  }
}
