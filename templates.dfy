/** The SQL statements of internal/repository/storage/templates.go, each as
    a function from table contents to new contents or to a query result. */
module Templates {
  import opened Types
  import opened Schema

  /** The templates that are queued into batches, bound to their arguments. */
  datatype Statement =
    | AddEmail(userId: nat, email: string)     // AddEmailTemplate
    | AddFriendship(pair: Friendship)          // AddFriendshipTemplate
    | DeleteEmail(id: nat)                     // DeleteEmailTemplate
    | DeleteFriendship(pair: Friendship)       // DeleteFriendshipTemplate

  /** New contents and the id a RETURNING clause yields. */
  datatype Inserted = Inserted(db: Db, id: nat)

  /** New contents and the command tag's rows-affected count. */
  datatype Affected = Affected(db: Db, rows: nat)

  /** AddUserInfoTemplate: inserts the row and returns its generated id. */
  function InsertUser(db: Db, u: User): (r: Inserted)
    ensures r.id in r.db.users && r.db.users[r.id] == u
    ensures r.db.users.Keys == db.users.Keys + {r.id}
    ensures r.db.emails == db.emails && r.db.friends == db.friends
    ensures r.db.nextEmailId == db.nextEmailId
    ensures SerialsFresh(db) ==> 1 <= r.id && r.id !in db.users && forall id :: id in db.users ==> id < r.id
    ensures SerialsFresh(db) ==> forall id :: id in db.users ==> r.db.users[id] == db.users[id]
    ensures Consistent(db) ==> Consistent(r.db)
  {
    var id := db.nextUserId;
    Inserted(db.(users := db.users[id := u], nextUserId := id + 1), id)
  }

  /** AddEmailTemplate: `ON CONFLICT (email) DO NOTHING`. A value already
      present, whoever owns it, makes the insert a no-op; otherwise the
      foreign key on user_id is checked. */
  function InsertEmail(db: Db, userId: nat, email: string): (r: Result<Db>)
    ensures email in EmailValues(db.emails) ==> r == Ok(db)
    ensures r.Ok? <==> email in EmailValues(db.emails) || userId in db.users
    ensures r.Err? ==> r.error == ForeignKeyViolation
    ensures r.Ok? ==>
      && r.value.users == db.users && r.value.friends == db.friends
      && r.value.nextUserId == db.nextUserId
      && (forall k :: k in r.value.emails && k !in db.emails ==> r.value.emails[k] == EmailRow(userId, email))
    ensures r.Ok? && SerialsFresh(db) ==>
      && SerialsFresh(r.value)
      && EmailValues(r.value.emails) == EmailValues(db.emails) + {email}
      && (forall k :: k in db.emails ==> k in r.value.emails && r.value.emails[k] == db.emails[k])
    ensures r.Ok? && Consistent(db) ==> Consistent(r.value)
  {
    if email in EmailValues(db.emails) then Ok(db)
    else if userId !in db.users then Err(ForeignKeyViolation)
    else
      AddEmailRow(db, EmailRow(userId, email));
      Ok(AddedEmailRow(db, EmailRow(userId, email)))
  }

  /** The contents after a row is stored under the next email serial. */
  function AddedEmailRow(db: Db, row: EmailRow): Db {
    db.(emails := db.emails[db.nextEmailId := row], nextEmailId := db.nextEmailId + 1)
  }

  /** Storing a row with a new value under the next serial keeps the other
      tables and rows, adds exactly the value, and keeps the constraints
      when the owner exists. */
  lemma AddEmailRow(db: Db, row: EmailRow)
    requires row.email !in EmailValues(db.emails)
    ensures var d := AddedEmailRow(db, row);
            && d.users == db.users && d.friends == db.friends && d.nextUserId == db.nextUserId
            && (forall k :: k in d.emails && k !in db.emails ==> d.emails[k] == row)
            && (SerialsFresh(db) ==>
                  && SerialsFresh(d)
                  && EmailValues(d.emails) == EmailValues(db.emails) + {row.email}
                  && (forall k :: k in db.emails ==> k in d.emails && d.emails[k] == db.emails[k]))
            && (Consistent(db) && row.userId in db.users ==> Consistent(d))
  {
    var id := db.nextEmailId;
    var d := AddedEmailRow(db, row);
    assert d.emails == db.emails[id := row];
    if SerialsFresh(db) {
      assert id !in db.emails;
      EmailValuesAdd(db.emails, id, row);
      forall k | k in db.emails ensures k in d.emails && d.emails[k] == db.emails[k] {
        assert k != id;
      }
    }
    AddEmailRowConsistent(db, row);
  }

  /** A new row with an unused value and an existing owner, under the next
      serial, keeps every constraint. */
  lemma AddEmailRowConsistent(db: Db, row: EmailRow)
    ensures Consistent(db) && row.email !in EmailValues(db.emails) && row.userId in db.users ==>
      Consistent(db.(emails := db.emails[db.nextEmailId := row], nextEmailId := db.nextEmailId + 1))
  {
    if Consistent(db) && row.email !in EmailValues(db.emails) && row.userId in db.users {
      var id := db.nextEmailId;
      var emails' := db.emails[id := row];
      forall k1, k2 | k1 in emails' && k2 in emails' && emails'[k1].email == emails'[k2].email
        ensures k1 == k2
      {
        if k1 != id { assert db.emails[k1].email in EmailValues(db.emails); }
        if k2 != id { assert db.emails[k2].email in EmailValues(db.emails); }
      }
    }
  }

  /** Adding a row under a fresh key adds exactly its value. */
  lemma EmailValuesAdd(emails: map<nat, EmailRow>, id: nat, row: EmailRow)
    ensures id !in emails ==> EmailValues(emails[id := row]) == EmailValues(emails) + {row.email}
  {
    if id !in emails {
      var emails' := emails[id := row];
      forall v | v in EmailValues(emails) ensures v in EmailValues(emails') {
        var k :| k in emails && emails[k].email == v;
        assert emails'[k] == emails[k];
      }
      forall v | v in EmailValues(emails') ensures v in EmailValues(emails) || v == row.email {
        var k :| k in emails' && emails'[k].email == v;
        if k != id { assert emails[k] == emails'[k]; }
      }
      assert row.email in EmailValues(emails') by { assert emails'[id] == row; }
    }
  }

  /** AddFriendshipTemplate: `ON CONFLICT (id_first_friend, id_second_friend)
      DO NOTHING`; otherwise both foreign keys are checked. */
  function InsertFriendship(db: Db, p: Friendship): (r: Result<Db>)
    ensures p in db.friends ==> r == Ok(db)
    ensures r.Ok? <==> p in db.friends || (p.first in db.users && p.second in db.users)
    ensures r.Err? ==> r.error == ForeignKeyViolation
    ensures r.Ok? ==> r.value == db.(friends := db.friends + {p})
    ensures r.Ok? && Consistent(db) ==> Consistent(r.value)
  {
    if p in db.friends then Ok(db)
    else if p.first !in db.users || p.second !in db.users then Err(ForeignKeyViolation)
    else Ok(db.(friends := db.friends + {p}))
  }

  /** UpdateUserInfoTemplate: overwrites all five columns of the row with
      that id; no other row or table changes. */
  function UpdateUserRow(db: Db, id: nat, u: User): (r: Affected)
    ensures r.rows == (if id in db.users then 1 else 0)
    ensures r.rows == 0 ==> r.db == db
    ensures r.db.users.Keys == db.users.Keys
    ensures id in db.users ==> r.db.users[id] == u
    ensures forall k :: k in db.users && k != id ==> r.db.users[k] == db.users[k]
    ensures r.db.emails == db.emails && r.db.friends == db.friends
    ensures r.db.nextUserId == db.nextUserId && r.db.nextEmailId == db.nextEmailId
    ensures Consistent(db) ==> Consistent(r.db)
  {
    if id in db.users then Affected(db.(users := db.users[id := u]), 1)
    else Affected(db, 0)
  }

  /** DeleteUserTemplate together with `ON DELETE CASCADE`: the user's
      emails and every friendship naming the user go with it. */
  function DeleteUserRow(db: Db, id: nat): (r: Affected)
    ensures r.rows == (if id in db.users then 1 else 0)
    ensures r.rows == 0 ==> r.db == db
    ensures r.db.users.Keys == db.users.Keys - {id}
    ensures forall k :: k in r.db.users ==> r.db.users[k] == db.users[k]
    ensures forall k :: k in r.db.emails <==> k in db.emails && (id in db.users ==> db.emails[k].userId != id)
    ensures forall k :: k in r.db.emails ==> r.db.emails[k] == db.emails[k]
    ensures forall p :: p in r.db.friends <==> p in db.friends && (id in db.users ==> p.first != id && p.second != id)
    ensures r.db.nextUserId == db.nextUserId && r.db.nextEmailId == db.nextEmailId
    ensures Consistent(db) ==> Consistent(r.db)
  {
    if id !in db.users then Affected(db, 0)
    else
      var users' := db.users - {id};
      var emails' := map k | k in db.emails && db.emails[k].userId != id :: db.emails[k];
      var friends' := set p | p in db.friends && p.first != id && p.second != id;
      Affected(db.(users := users', emails := emails', friends := friends'), 1)
  }

  /** DeleteEmailTemplate: removes the row with that id; an absent id is a
      no-op, not an error. */
  function DeleteEmailRow(db: Db, id: nat): (r: Db)
    ensures id !in db.emails ==> r == db
    ensures r.emails.Keys == db.emails.Keys - {id}
    ensures forall k :: k in r.emails ==> r.emails[k] == db.emails[k]
    ensures r.users == db.users && r.friends == db.friends
    ensures r.nextUserId == db.nextUserId && r.nextEmailId == db.nextEmailId
    ensures Consistent(db) ==> Consistent(r)
  {
    db.(emails := db.emails - {id})
  }

  /** DeleteFriendshipTemplate: removes exactly the ordered pair given. */
  function DeleteFriendshipRow(db: Db, p: Friendship): (r: Db)
    ensures p !in db.friends ==> r == db
    ensures p !in r.friends
    ensures forall q :: q != p ==> (q in r.friends <==> q in db.friends)
    ensures r.users == db.users && r.emails == db.emails
    ensures r.nextUserId == db.nextUserId && r.nextEmailId == db.nextEmailId
    ensures Consistent(db) ==> Consistent(r)
  {
    db.(friends := db.friends - {p})
  }

  /** One statement of a batch. Deletes never fail, and a statement is
      rejected only by a foreign key. */
  function Exec(db: Db, s: Statement): (r: Result<Db>)
    ensures s.DeleteEmail? || s.DeleteFriendship? ==> r.Ok?
    ensures r.Err? ==> r.error == ForeignKeyViolation
  {
    match s
    case AddEmail(userId, email) => InsertEmail(db, userId, email)
    case AddFriendship(p) => InsertFriendship(db, p)
    case DeleteEmail(id) => Ok(DeleteEmailRow(db, id))
    case DeleteFriendship(p) => Ok(DeleteFriendshipRow(db, p))
  }

  /** The member of a Friends row that is not x (x itself for (x, x)). */
  function Other(p: Friendship, x: nat): nat {
    if p.first == x then p.second else p.first
  }

  /** The Friends rows GetUserFriendsTemplate matches for x: rows naming x in
      either column whose other member joins with a Users row. */
  function FriendRows(db: Db, x: nat): (rows: set<Friendship>)
    ensures forall p :: p in rows ==> p in db.friends && Other(p, x) in db.users
  {
    set p | p in db.friends && (p.first == x || p.second == x) && Other(p, x) in db.users
  }

  /** The result row GetUserFriendsTemplate produces for a matched row. */
  function FriendEntry(db: Db, p: Friendship, x: nat): Friend
    requires Other(p, x) in db.users
  {
    Friend(Other(p, x), db.users[Other(p, x)].name)
  }

  /** The ids GetUserFriendsTemplate lists for x. */
  function FriendIds(db: Db, x: nat): set<nat> {
    set p | p in FriendRows(db, x) :: Other(p, x)
  }

  /** The result rows of GetUserFriendsTemplate for x: each listed id with
      that user's name. */
  function FriendsOf(db: Db, x: nat): (fs: set<Friend>)
    ensures forall f :: f in fs ==>
      f.friendId in FriendIds(db, x) && f.friendId in db.users && f.name == db.users[f.friendId].name
    ensures forall u :: u in FriendIds(db, x) ==> u in db.users && Friend(u, db.users[u].name) in fs
  {
    var fs := set p | p in FriendRows(db, x) :: FriendEntry(db, p, x);
    assert forall u :: u in FriendIds(db, x) ==> Friend(u, db.users[u].name) in fs by {
      forall u | u in FriendIds(db, x) ensures Friend(u, db.users[u].name) in fs {
        var p :| p in FriendRows(db, x) && Other(p, x) == u;
        assert FriendEntry(db, p, x) in fs;
      }
    }
    fs
  }

  /** The friends query: u is listed for x exactly when (x, u) or (u, x) is
      a stored row. */
  lemma FriendIdsMatchEitherOrientation(db: Db, x: nat, u: nat)
    requires FriendsExist(db)
    ensures u in FriendIds(db, x) <==> Friendship(x, u) in db.friends || Friendship(u, x) in db.friends
  {
    if Friendship(x, u) in db.friends {
      assert Friendship(x, u) in FriendRows(db, x);
    } else if Friendship(u, x) in db.friends {
      assert Other(Friendship(u, x), x) == u;
      assert Friendship(u, x) in FriendRows(db, x);
    }
    if u in FriendIds(db, x) {
      var p :| p in FriendRows(db, x) && Other(p, x) == u;
      assert p == Friendship(x, u) || p == Friendship(u, x);
    }
  }

  /** Friendship is symmetric as the query reports it. */
  lemma FriendIdsSymmetric(db: Db, x: nat, u: nat)
    requires FriendsExist(db)
    ensures u in FriendIds(db, x) <==> x in FriendIds(db, u)
  {
    FriendIdsMatchEitherOrientation(db, x, u);
    FriendIdsMatchEitherOrientation(db, u, x);
  }

  /** The keys of the Emails rows owned by a user: the filter of both email
      queries. */
  function EmailKeysOf(db: Db, id: nat): set<nat> {
    set k | k in db.emails && db.emails[k].userId == id
  }

  /** The address values owned by a user: what the ARRAY_AGG of the user
      queries collects. */
  function EmailsOf(db: Db, id: nat): set<string> {
    set k | k in EmailKeysOf(db, id) :: db.emails[k].email
  }

  /** GetAllUserEmailsTemplate: the Emails rows owned by a user. */
  function EmailsQuery(db: Db, id: nat): set<Email> {
    set k | k in EmailKeysOf(db, id) :: Email(k, id, db.emails[k].email)
  }

  /** The addresses aggregated into a user's info are exactly the addresses
      of the user's rows in the emails listing. */
  lemma EmailsOfMatchesQuery(db: Db, id: nat, e: string)
    ensures e in EmailsOf(db, id) <==> exists k :: Email(k, id, e) in EmailsQuery(db, id)
  {
    if e in EmailsOf(db, id) {
      var k :| k in EmailKeysOf(db, id) && db.emails[k].email == e;
      assert Email(k, id, e) in EmailsQuery(db, id);
    }
    if exists k :: Email(k, id, e) in EmailsQuery(db, id) {
      var k :| Email(k, id, e) in EmailsQuery(db, id);
      var k' :| k' in EmailKeysOf(db, id) && Email(k', id, db.emails[k'].email) == Email(k, id, e);
      assert db.emails[k'].email in EmailsOf(db, id);
    }
  }
}
