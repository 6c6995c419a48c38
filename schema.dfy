/** The relational schema of internal/repository/storage/migration.go: the
    three tables as one value, the constraints the DDL declares, and the
    idempotent creation of the schema objects. */
module Schema {
  import opened Types

  /** One row of Emails; its serial id is the key of the map that holds it. */
  datatype EmailRow = EmailRow(userId: nat, email: string)

  /** The contents of Users, Emails and Friends, and the next value of the
      serial sequences behind Users.id and Emails.id. */
  datatype Db = Db(
    users: map<nat, User>,
    emails: map<nat, EmailRow>,
    friends: set<Friendship>,
    nextUserId: nat,
    nextEmailId: nat)

  /** Freshly created tables: empty, both sequences at 1. */
  const Empty: Db := Db(map[], map[], {}, 1, 1)

  /** The set of address values stored in Emails. */
  function EmailValues(emails: map<nat, EmailRow>): set<string> {
    set k | k in emails :: emails[k].email
  }

  /** `email text not null UNIQUE`: no two rows, of any users, share a value. */
  ghost predicate UniqueEmails(emails: map<nat, EmailRow>) {
    forall k1, k2 :: k1 in emails && k2 in emails && emails[k1].email == emails[k2].email ==> k1 == k2
  }

  /** `FOREIGN KEY (user_id) REFERENCES Users(id)`. */
  ghost predicate EmailOwnersExist(db: Db) {
    forall k :: k in db.emails ==> db.emails[k].userId in db.users
  }

  /** The two foreign keys of Friends. The primary key on the pair is the
      set representation itself: a pair is stored at most once. */
  ghost predicate FriendsExist(db: Db) {
    forall p :: p in db.friends ==> p.first in db.users && p.second in db.users
  }

  /** `id serial primary key`: ids start at 1 and every id in use is below
      the next value of its sequence. */
  ghost predicate SerialsFresh(db: Db) {
    && 1 <= db.nextUserId && 1 <= db.nextEmailId
    && (forall id :: id in db.users ==> 1 <= id < db.nextUserId)
    && (forall k :: k in db.emails ==> 1 <= k < db.nextEmailId)
  }

  /** Every constraint the DDL declares. */
  ghost predicate Consistent(db: Db) {
    UniqueEmails(db.emails) && EmailOwnersExist(db) && FriendsExist(db) && SerialsFresh(db)
  }

  /** Objects the migration creates. */
  datatype SchemaObject = UsersTable | EmailsTable | FriendsTable | FriendsSecondFirstIndex

  /** The statements Migrations executes, in order; the Emails and Friends
      tables refer to Users, so Users comes first. */
  const MigrationSteps: seq<SchemaObject> := [UsersTable, EmailsTable, FriendsTable, FriendsSecondFirstIndex]

  /** `CREATE ... IF NOT EXISTS`: adds the object when absent, otherwise
      leaves the catalog (and the object's rows) alone. */
  function CreateIfNotExists(catalog: set<SchemaObject>, obj: SchemaObject): (c: set<SchemaObject>)
    ensures obj in c && catalog <= c && c - catalog <= {obj}
    ensures obj in catalog ==> c == catalog
  {
    if obj in catalog then catalog else catalog + {obj}
  }

  /** Executes the given creation statements in order. */
  function Migrate(catalog: set<SchemaObject>, steps: seq<SchemaObject>): (c: set<SchemaObject>)
    ensures catalog <= c
    ensures forall s :: s in steps ==> s in c
    decreases |steps|
  {
    if steps == [] then catalog
    else Migrate(CreateIfNotExists(catalog, steps[0]), steps[1..])
  }

  /** The migration creates exactly the missing objects among its steps. */
  lemma {:induction false} MigrateCreatesSteps(catalog: set<SchemaObject>, steps: seq<SchemaObject>)
    ensures Migrate(catalog, steps) == catalog + set s | s in steps
    decreases |steps|
  {
    if steps != [] {
      MigrateCreatesSteps(CreateIfNotExists(catalog, steps[0]), steps[1..]);
      assert (set s | s in steps) == {steps[0]} + set s | s in steps[1..];
    }
  }

  /** Running the migration on every startup is safe: a second run changes
      nothing. */
  lemma {:induction false} MigrateIdempotent(catalog: set<SchemaObject>)
    ensures Migrate(Migrate(catalog, MigrationSteps), MigrationSteps) == Migrate(catalog, MigrationSteps)
  {
    MigrateCreatesSteps(catalog, MigrationSteps);
    MigrateCreatesSteps(Migrate(catalog, MigrationSteps), MigrationSteps);
  }

  /** On a database without the tables, the migration creates every schema
      object. */
  lemma MigrateCreatesAll()
    ensures forall o: SchemaObject :: o in Migrate({}, MigrationSteps)
  {
    MigrateCreatesSteps({}, MigrationSteps);
    forall o: SchemaObject ensures o in MigrationSteps {
      match o
      case UsersTable => assert MigrationSteps[0] == o;
      case EmailsTable => assert MigrationSteps[1] == o;
      case FriendsTable => assert MigrationSteps[2] == o;
      case FriendsSecondFirstIndex => assert MigrationSteps[3] == o;
    }
  }
}
