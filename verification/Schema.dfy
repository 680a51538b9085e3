/** The tables of app/models.py and app/distribution/links.py, their foreign keys, and
    the statements the purges send: bulk deletes and column updates. */
module Schema {
  import opened Outcomes

  datatype Table =
    | Company | User | Employee | Relief | Deployment | Run | Item | Voucher | Remittance
    | Expense | Receipt | Proposal | Import | Audit | Event | Notification | Delivery | Batch
    | Link | Rate | WageRate | RawEntry | Archive | Access | Licence

  /** What a user did to the row; Main is the one user column of tables that have one. */
  datatype Role = Main | Creator | Reviewer | Approver | Preparer | Payer | Recorder

  /** A foreign key of the owner, to a table other than the users or to them. */
  datatype Column = Ref(owner: Table, to: Table) | UserRef(owner: Table, role: Role) {
    function Target(): Table { if UserRef? then User else to }
  }

  datatype Row = Row(table: Table, id: nat)

  /** The columns of a row that are not NULL. */
  type Refs = map<Column, Row>

  /** The rows present and what they refer to. */
  type Db = map<Row, Refs>

  /** The foreign keys there are. */
  predicate InSchema(c: Column) {
    match c
    case Ref(owner, to) => (
      match owner
      case User | Employee | Proposal | Event | Access => to == Company
      case Relief => to == Employee
      case Deployment | WageRate => to == Employee || to == Company
      case Run => to == Company || to == Rate
      case Item => to == Run || to == Employee
      case Voucher | Remittance | RawEntry | Archive => to == Run
      case Expense | Import | Batch => to == Company || to == Run
      case Receipt => to == Expense || to == Company
      case Notification => to == Company || to == Event
      case Delivery => to == Item || to == Run || to == Batch
      case Link => to == Item || to == Delivery
      case Licence => to == Access
      case Company | Audit | Rate => false)
    case UserRef(owner, role) => (
      match owner
      case Run => role == Creator || role == Reviewer || role == Approver
      case Voucher => role == Preparer || role == Reviewer || role == Approver
      case Expense => role == Payer || role == Approver || role == Recorder
      case Receipt | Proposal | Import | Audit | Event | Notification | Batch | Rate | Access | Licence =>
        role == Main
      case _ => false)
  }

  lemma NeverALink(c: Column)
    requires InSchema(c)
    ensures c.Target() != Link
  {
  }

  ghost predicate WellTyped(db: Db) {
    forall r, c | r in db && c in db[r] ::
      InSchema(c) && r.table == c.owner && db[r][c].table == c.Target()
  }

  /** Every foreign key names a row that is there. */
  ghost predicate Integrity(db: Db) {
    forall r, c | r in db && c in db[r] :: db[r][c] in db
  }

  /** A row that fits the schema and names rows that are there can be added. */
  lemma RowAdded(db: Db, r: Row, refs: Refs)
    requires WellTyped(db) && Integrity(db) && r !in db
    requires forall c :: c in refs ==>
               InSchema(c) && r.table == c.owner && refs[c].table == c.Target() && refs[c] in db
    ensures WellTyped(db[r := refs]) && Integrity(db[r := refs])
  {
    hide InSchema;
  }

  /** The row refers to one of the targets through one of the columns. */
  predicate Names(refs: Refs, columns: set<Column>, targets: set<Row>) {
    exists c :: c in columns && c in refs && refs[c] in targets
  }

  function Matching(db: Db, columns: set<Column>, targets: set<Row>): set<Row> {
    set r | r in db && Names(db[r], columns, targets)
  }

  /** The two foreign keys of payslip_link are declared ON DELETE CASCADE. */
  const CASCADING := {Ref(Link, Item), Ref(Link, Delivery)}

  /** The rows and the links that cascade from them are gone. */
  function Remove(db: Db, rows: set<Row>): Db {
    map r | r in db && r !in rows && !Names(db[r], CASCADING, rows) :: db[r]
  }

  function DeleteWhere(db: Db, columns: set<Column>, targets: set<Row>): Db {
    Remove(db, Matching(db, columns, targets))
  }

  /** The row after `UPDATE ... SET c = to WHERE c IN from`. */
  function Repointed(refs: Refs, columns: set<Column>, from: set<Row>, to: Option<Row>): Refs {
    map c | c in refs && !(c in columns && refs[c] in from && to.None?) ::
      if c in columns && refs[c] in from then to.value else refs[c]
  }

  function Repoint(db: Db, columns: set<Column>, from: set<Row>, to: Option<Row>): Db {
    map r | r in db :: Repointed(db[r], columns, from, to)
  }
}
