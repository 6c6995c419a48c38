/** The persistence layer of internal/repository/storage/storage.go: what each
    operation does to the three tables (as functions on their contents), the
    loops that queue batch statements and read result rows, and the Storage
    object whose table fields the operations update. */
module Storage {
  import opened Types
  import opened Schema
  import opened Templates
  import opened Batch
  import opened Text

  /** Every stored pair has its smaller id first. With the pair primary key
      this gives one row per unordered pair and no self-pairs. The schema does
      not declare it: the canonical order of every insert keeps it. */
  ghost predicate Canonical(friends: set<Friendship>) {
    forall p :: p in friends ==> p.first < p.second
  }

  /** The invariant of the stored tables. */
  ghost predicate WellFormed(db: Db) {
    Consistent(db) && Canonical(db.friends)
  }

  /** The returned error (or nil) and the tables afterwards. */
  datatype Effect = Effect(outcome: Outcome, db: Db)

  /** CreateUser's returned id (0 on error), error and tables afterwards. */
  datatype Created = Created(id: nat, outcome: Outcome, db: Db)

  ghost predicate Distinct<T>(s: seq<T>) {
    forall i, j :: 0 <= i < j < |s| ==> s[i] != s[j]
  }

  /** The trimmed values of a list of addresses. */
  function Trimmed(emails: seq<string>): set<string> {
    set i | 0 <= i < |emails| :: TrimSpace(emails[i])
  }

  /** The canonical pairs AddUserFriends stores for a user. */
  function FriendSet(userId: nat, ids: seq<nat>): set<Friendship> {
    set f | f in ids && f != userId :: Canon(userId, f)
  }

  /** The canonical pairs DeleteUserFriends removes. */
  function CanonSet(pairs: seq<Friendship>): set<Friendship> {
    set p | p in pairs :: Canon(p.first, p.second)
  }

  /** The error returned when no connection can be acquired. */
  function ConnectionFailure(conn: Connection): Error
    requires conn.Unavailable?
  {
    DatabaseError(conn.cause)
  }

  /** The error SendBatch(...).Close() returns and the tables afterwards:
      the whole batch, or on the first error nothing. */
  function BatchEffect(db: Db, batch: seq<Statement>): Effect {
    var res := RunBatch(db, batch);
    if res.Ok? then Effect(Pass, res.value) else Effect(Fail(res.error), db)
  }

  /** The first statement that fails decides the batch: its error is
      returned and none of the statements before it is kept. */
  lemma FirstErrorAborts(db: Db, batch: seq<Statement>, i: nat)
    requires i < |batch| && RunBatch(db, batch[..i]).Ok?
    requires Exec(RunBatch(db, batch[..i]).value, batch[i]).Err?
    ensures BatchEffect(db, batch) == Effect(Fail(Exec(RunBatch(db, batch[..i]).value, batch[i]).error), db)
  {
    assert batch[..i + 1][..i] == batch[..i];
    assert batch == batch[..i + 1] + batch[i + 1..];
    RunBatchAppend(db, batch[..i + 1], batch[i + 1..]);
  }

  // ---------------------------------------------------------------------
  // What each operation does to the tables

  /** CreateUser: one insert; returns the generated id, which is fresh. */
  function CreateUserSpec(conn: Connection, db: Db, u: User): (r: Created)
    requires WellFormed(db)
    ensures conn.Unavailable? ==> r == Created(0, Fail(ConnectionFailure(conn)), db)
    ensures conn.Available? ==> r.outcome == Pass && 1 <= r.id && r.id !in db.users
    ensures r.outcome == Pass ==>
      r.db.users == db.users[r.id := u] && r.db.emails == db.emails && r.db.friends == db.friends
    ensures r.db.nextEmailId == db.nextEmailId
    ensures WellFormed(r.db)
  {
    if conn.Unavailable? then Created(0, Fail(ConnectionFailure(conn)), db)
    else
      var ins := InsertUser(db, u);
      assert ins.db.users == db.users[ins.id := u];
      Created(ins.id, Pass, ins.db)
  }

  /** AddUserEmails: an empty list is rejected with ErrNotFound; otherwise one
      conflict-tolerant insert per trimmed address, sent as one batch. */
  function AddEmailsSpec(conn: Connection, db: Db, emails: seq<string>, userId: nat): (r: Effect)
    requires WellFormed(db)
    ensures conn.Unavailable? ==> r == Effect(Fail(ConnectionFailure(conn)), db)
    ensures conn.Available? && emails == [] ==> r == Effect(Fail(NotFound), db)
    ensures conn.Available? && emails != [] ==>
      (r.outcome == Pass <==> userId in db.users || Trimmed(emails) <= EmailValues(db.emails))
    ensures conn.Available? && emails != [] && r.outcome.Fail? ==> r.outcome.error == ForeignKeyViolation
    ensures r.outcome.Fail? ==> r.db == db
    ensures r.outcome == Pass ==>
      && r.db.users == db.users && r.db.friends == db.friends && r.db.nextUserId == db.nextUserId
      && EmailValues(r.db.emails) == EmailValues(db.emails) + Trimmed(emails)
      && (forall k :: k in db.emails ==> k in r.db.emails && r.db.emails[k] == db.emails[k])
      && (forall k :: k in r.db.emails && k !in db.emails ==> r.db.emails[k].userId == userId)
    ensures WellFormed(r.db)
  {
    if conn.Unavailable? then Effect(Fail(ConnectionFailure(conn)), db)
    else if |emails| == 0 then Effect(Fail(NotFound), db)
    else
      var batch := EmailBatch(userId, emails);
      EmailBatchValues(userId, emails);
      RunEmailInserts(db, userId, batch);
      RunEmailInsertsAdds(db, userId, batch);
      RunEmailInsertsConsistent(db, batch);
      BatchEffect(db, batch)
  }

  /** The statements of EmailBatch insert exactly the trimmed addresses. */
  lemma EmailBatchValues(userId: nat, emails: seq<string>)
    ensures forall s :: s in EmailBatch(userId, emails) ==> s.AddEmail? && s.userId == userId
    ensures BatchEmails(EmailBatch(userId, emails)) == Trimmed(emails)
  {
    var batch := EmailBatch(userId, emails);
    forall s | s in batch ensures s.AddEmail? && s.userId == userId {
      var i :| 0 <= i < |batch| && batch[i] == s;
    }
    TrimmedInBatch(userId, emails);
    BatchInTrimmed(userId, emails);
  }

  lemma TrimmedInBatch(userId: nat, emails: seq<string>)
    ensures Trimmed(emails) <= BatchEmails(EmailBatch(userId, emails))
  {
    var batch := EmailBatch(userId, emails);
    forall e | e in Trimmed(emails) ensures e in BatchEmails(batch) {
      var i :| 0 <= i < |emails| && e == TrimSpace(emails[i]);
      assert batch[i] in batch;
    }
  }

  lemma BatchInTrimmed(userId: nat, emails: seq<string>)
    ensures BatchEmails(EmailBatch(userId, emails)) <= Trimmed(emails)
  {
    var batch := EmailBatch(userId, emails);
    forall i | 0 <= i < |batch| ensures batch[i].email in Trimmed(emails) {
      assert batch[i].email == TrimSpace(emails[i]);
    }
    forall s | s in batch ensures s.email in Trimmed(emails) {
      var i :| 0 <= i < |batch| && batch[i] == s;
    }
  }

  /** After a successful AddUserEmails, every trimmed address that was not
      stored before is listed among the user's rows by GetAllUserEmails. */
  lemma AddedEmailsListed(conn: Connection, db: Db, emails: seq<string>, userId: nat)
    requires WellFormed(db)
    ensures var r := AddEmailsSpec(conn, db, emails, userId);
            r.outcome == Pass ==> forall e :: e in Trimmed(emails) && e !in EmailValues(db.emails) ==>
              exists k :: Email(k, userId, e) in EmailsQuery(r.db, userId)
  {
    var r := AddEmailsSpec(conn, db, emails, userId);
    var d := r.db;
    forall e | r.outcome == Pass && e in Trimmed(emails) && e !in EmailValues(db.emails)
      ensures exists k :: Email(k, userId, e) in EmailsQuery(d, userId)
    {
      assert e in EmailValues(d.emails);
      var k :| k in d.emails && d.emails[k].email == e;
      assert k !in db.emails;
      assert k in EmailKeysOf(d, userId);
      assert Email(k, userId, e) in EmailsQuery(d, userId);
    }
  }

  /** AddUserFriends: an empty list is rejected with "No friends"; otherwise
      the canonical pair of the user with every other given id is stored,
      unless one of them names a missing user, which stores nothing. */
  function AddFriendsSpec(conn: Connection, db: Db, ids: seq<nat>, userId: nat): (r: Effect)
    requires WellFormed(db)
    ensures conn.Unavailable? ==> r == Effect(Fail(ConnectionFailure(conn)), db)
    ensures conn.Available? && ids == [] ==> r == Effect(Fail(NoFriends), db)
    ensures conn.Available? && ids != [] ==>
      (r.outcome == Pass <==> forall f :: f in ids && f != userId ==> userId in db.users && f in db.users)
    ensures conn.Available? && ids != [] && r.outcome.Fail? ==> r.outcome.error == ForeignKeyViolation
    ensures r.outcome == Pass ==> forall f :: f in ids && f != userId ==> Canon(userId, f) in r.db.friends
    ensures r.outcome.Fail? ==> r.db == db
    ensures r.db.users == db.users && r.db.emails == db.emails && db.friends <= r.db.friends
    ensures r.db.nextUserId == db.nextUserId && r.db.nextEmailId == db.nextEmailId
    ensures forall p :: p in r.db.friends && p !in db.friends ==>
      p.first < p.second && ((p.first == userId && p.second in ids) || (p.second == userId && p.first in ids))
    ensures WellFormed(r.db)
  {
    if conn.Unavailable? then Effect(Fail(ConnectionFailure(conn)), db)
    else if |ids| == 0 then Effect(Fail(NoFriends), db)
    else if forall f :: f in ids && f != userId ==> userId in db.users && f in db.users then
      AddPairsWellFormed(db, userId, ids);
      Effect(Pass, db.(friends := db.friends + FriendSet(userId, ids)))
    else Effect(Fail(ForeignKeyViolation), db)
  }

  /** Sending the batch AddUserFriends queues has exactly the effect
      AddFriendsSpec describes: all pairs or, on a foreign key violation,
      none. */
  lemma FriendInsertsEffect(db: Db, ids: seq<nat>, userId: nat)
    requires WellFormed(db) && ids != []
    ensures BatchEffect(db, FriendBatch(userId, ids)) == AddFriendsSpec(Available, db, ids, userId)
  {
    FriendBatchPairs(userId, ids, db.users);
    RunFriendInserts(db, FriendBatch(userId, ids));
  }

  /** Each pair of FriendSet is strictly ordered and joins the user with one
      of the given ids. */
  lemma FriendSetShape(userId: nat, ids: seq<nat>)
    ensures forall p :: p in FriendSet(userId, ids) ==>
      p.first < p.second && ((p.first == userId && p.second in ids) || (p.second == userId && p.first in ids))
  {
    forall p | p in FriendSet(userId, ids)
      ensures p.first < p.second && ((p.first == userId && p.second in ids) || (p.second == userId && p.first in ids))
    {
      var f :| f in ids && f != userId && p == Canon(userId, f);
    }
  }

  /** Storing the canonical pairs of existing users keeps the invariant. */
  lemma AddPairsWellFormed(db: Db, userId: nat, ids: seq<nat>)
    requires WellFormed(db)
    requires forall f :: f in ids && f != userId ==> userId in db.users && f in db.users
    ensures WellFormed(db.(friends := db.friends + FriendSet(userId, ids)))
  {
    FriendSetShape(userId, ids);
  }

  /** The statements of FriendBatch insert exactly FriendSet, and name only
      existing users exactly when the user and every other id exist. */
  lemma FriendBatchPairs(userId: nat, ids: seq<nat>, users: map<nat, User>)
    ensures BatchPairs(FriendBatch(userId, ids)) == FriendSet(userId, ids)
    ensures (forall s :: s in FriendBatch(userId, ids) ==> s.pair.first in users && s.pair.second in users)
        <==> (forall f :: f in ids && f != userId ==> userId in users && f in users)
  {
    var batch := FriendBatch(userId, ids);
    forall p | p in BatchPairs(batch) ensures p in FriendSet(userId, ids) {
      var s :| s in batch && s.pair == p;
      var f :| f in ids && f != userId && s.pair == Canon(userId, f);
    }
    forall p | p in FriendSet(userId, ids) ensures p in BatchPairs(batch) {
      var f :| f in ids && f != userId && p == Canon(userId, f);
      assert AddFriendship(p) in batch;
    }
    if forall s :: s in batch ==> s.pair.first in users && s.pair.second in users {
      forall f | f in ids && f != userId ensures userId in users && f in users {
        assert AddFriendship(Canon(userId, f)) in batch;
      }
    }
    if forall f :: f in ids && f != userId ==> userId in users && f in users {
      forall s | s in batch ensures s.pair.first in users && s.pair.second in users {
        var f :| f in ids && f != userId && s.pair == Canon(userId, f);
      }
    }
  }

  /** UpdateUser: overwrites the row; zero rows affected is the error "Not
      found user with id", with the tables unchanged. */
  function UpdateUserSpec(conn: Connection, db: Db, u: User, id: nat): (r: Effect)
    requires WellFormed(db)
    ensures conn.Unavailable? ==> r == Effect(Fail(ConnectionFailure(conn)), db)
    ensures conn.Available? && id !in db.users ==> r == Effect(Fail(UserNotFound(id)), db)
    ensures conn.Available? && id in db.users ==>
      r.outcome == Pass && r.db == db.(users := db.users[id := u])
    ensures WellFormed(r.db)
  {
    if conn.Unavailable? then Effect(Fail(ConnectionFailure(conn)), db)
    else
      var tag := UpdateUserRow(db, id, u);
      assert id in db.users ==> tag.db == db.(users := db.users[id := u]);
      if tag.rows == 0 then Effect(Fail(UserNotFound(id)), tag.db) else Effect(Pass, tag.db)
  }

  /** DeleteUser: deletes the row, the cascades removing the user's emails
      and friendships; zero rows affected is the error "Not found user with
      id", with the tables unchanged. */
  function DeleteUserSpec(conn: Connection, db: Db, id: nat): (r: Effect)
    requires WellFormed(db)
    ensures conn.Unavailable? ==> r == Effect(Fail(ConnectionFailure(conn)), db)
    ensures conn.Available? && id !in db.users ==> r == Effect(Fail(UserNotFound(id)), db)
    ensures conn.Available? && id in db.users ==>
      r.outcome == Pass && r.db == DeleteUserRow(db, id).db
    ensures WellFormed(r.db)
  {
    if conn.Unavailable? then Effect(Fail(ConnectionFailure(conn)), db)
    else
      var tag := DeleteUserRow(db, id);
      if tag.rows == 0 then Effect(Fail(UserNotFound(id)), tag.db) else Effect(Pass, tag.db)
  }

  /** DeleteEmails: an empty list is rejected with "No emails"; otherwise
      the rows with the given ids are deleted, absent ids being ignored. */
  function DeleteEmailsSpec(conn: Connection, db: Db, ids: seq<nat>): (r: Effect)
    requires WellFormed(db)
    ensures conn.Unavailable? ==> r == Effect(Fail(ConnectionFailure(conn)), db)
    ensures conn.Available? && ids == [] ==> r == Effect(Fail(NoEmails), db)
    ensures conn.Available? && ids != [] ==> r.outcome == Pass
    ensures r.db.users == db.users && r.db.friends == db.friends
    ensures r.db.nextUserId == db.nextUserId && r.db.nextEmailId == db.nextEmailId
    ensures forall k :: k in r.db.emails ==> k in db.emails && r.db.emails[k] == db.emails[k]
    ensures r.outcome == Pass ==> forall k :: k in db.emails ==> (k in r.db.emails <==> k !in ids)
    ensures r.outcome.Fail? ==> r.db == db
    ensures WellFormed(r.db)
  {
    if conn.Unavailable? then Effect(Fail(ConnectionFailure(conn)), db)
    else if |ids| == 0 then Effect(Fail(NoEmails), db)
    else Effect(Pass, db.(emails := db.emails - set i | i in ids))
  }

  /** Sending the batch DeleteEmails queues has exactly the effect
      DeleteEmailsSpec describes. */
  lemma EmailDeletesEffect(db: Db, ids: seq<nat>)
    requires WellFormed(db) && ids != []
    ensures BatchEffect(db, EmailDeleteBatch(ids)) == DeleteEmailsSpec(Available, db, ids)
  {
    var batch := EmailDeleteBatch(ids);
    RunEmailDeletes(db, batch);
    assert BatchEmailIds(batch) == set i | i in ids by {
      forall i | i in ids ensures i in BatchEmailIds(batch) {
        var j :| 0 <= j < |ids| && ids[j] == i;
        assert batch[j] in batch;
      }
    }
  }

  /** DeleteUserFriends: an empty list is rejected with "No friends";
      otherwise the row of every given pair is deleted, whichever way round
      the pair is given, and no other row. */
  function DeleteFriendsSpec(conn: Connection, db: Db, pairs: seq<Friendship>): (r: Effect)
    requires WellFormed(db)
    ensures conn.Unavailable? ==> r == Effect(Fail(ConnectionFailure(conn)), db)
    ensures conn.Available? && pairs == [] ==> r == Effect(Fail(NoFriends), db)
    ensures conn.Available? && pairs != [] ==> r.outcome == Pass
    ensures r.db.users == db.users && r.db.emails == db.emails && r.db.friends <= db.friends
    ensures r.db.nextUserId == db.nextUserId && r.db.nextEmailId == db.nextEmailId
    ensures r.outcome == Pass ==> forall q :: q in pairs ==>
      Friendship(q.first, q.second) !in r.db.friends && Friendship(q.second, q.first) !in r.db.friends
    ensures r.outcome == Pass ==> forall p :: p in db.friends && p !in r.db.friends ==>
      exists q :: q in pairs && {p.first, p.second} == {q.first, q.second}
    ensures r.outcome.Fail? ==> r.db == db
    ensures WellFormed(r.db)
  {
    if conn.Unavailable? then Effect(Fail(ConnectionFailure(conn)), db)
    else if |pairs| == 0 then Effect(Fail(NoFriends), db)
    else
      CanonSetMatches(db, pairs);
      Effect(Pass, db.(friends := db.friends - CanonSet(pairs)))
  }

  /** In a canonical table, the canonical forms of the given pairs are the
      only rows naming the same two ids as a given pair. */
  lemma CanonSetMatches(db: Db, pairs: seq<Friendship>)
    requires Canonical(db.friends)
    ensures forall q :: q in pairs ==>
      Friendship(q.first, q.second) !in db.friends - CanonSet(pairs) && Friendship(q.second, q.first) !in db.friends - CanonSet(pairs)
    ensures forall p :: p in CanonSet(pairs) ==> exists q :: q in pairs && {p.first, p.second} == {q.first, q.second}
  {
    forall q | q in pairs
      ensures Friendship(q.first, q.second) !in db.friends - CanonSet(pairs) && Friendship(q.second, q.first) !in db.friends - CanonSet(pairs)
    {
      assert Canon(q.first, q.second) in CanonSet(pairs);
    }
    forall p | p in CanonSet(pairs) ensures exists q :: q in pairs && {p.first, p.second} == {q.first, q.second} {
      var q :| q in pairs && p == Canon(q.first, q.second);
    }
  }

  /** Sending the batch DeleteUserFriends queues has exactly the effect
      DeleteFriendsSpec describes. */
  lemma FriendDeletesEffect(db: Db, pairs: seq<Friendship>)
    requires WellFormed(db) && pairs != []
    ensures BatchEffect(db, FriendDeleteBatch(pairs)) == DeleteFriendsSpec(Available, db, pairs)
  {
    var batch := FriendDeleteBatch(pairs);
    RunFriendDeletes(db, batch);
    assert BatchPairs(batch) == CanonSet(pairs) by {
      forall p | p in CanonSet(pairs) ensures p in BatchPairs(batch) {
        var q :| q in pairs && p == Canon(q.first, q.second);
        var j :| 0 <= j < |pairs| && pairs[j] == q;
        assert batch[j] in batch;
      }
    }
  }

  // ---------------------------------------------------------------------
  // Properties relating several operations

  /** The pairs a adding b stores: none for a self-pair, otherwise the one
      canonical pair. */
  lemma FriendSetSingle(a: nat, b: nat)
    ensures FriendSet(a, [b]) == if a == b then {} else {Canon(a, b)}
  {
    assert b in [b];
  }

  /** AddUserFriends with the single id b for user a. */
  lemma AddOneFriend(conn: Connection, db: Db, a: nat, b: nat)
    requires WellFormed(db)
    ensures AddFriendsSpec(conn, db, [b], a) ==
      if conn.Unavailable? then Effect(Fail(ConnectionFailure(conn)), db)
      else if a == b then Effect(Pass, db.(friends := db.friends + {}))
      else if a in db.users && b in db.users then Effect(Pass, db.(friends := db.friends + {Canon(a, b)}))
      else Effect(Fail(ForeignKeyViolation), db)
  {
    var r := AddFriendsSpec(conn, db, [b], a);
    FriendSetSingle(a, b);
    if conn.Available? {
      assert forall f :: f in [b] <==> f == b;
      if a == b {
        assert r.outcome == Pass;
      } else if a in db.users && b in db.users {
        assert r.outcome == Pass;
      } else {
        assert r.outcome.Fail?;
      }
    }
  }

  /** Befriending is orientation-blind: a adding b stores the same row as b
      adding a. */
  lemma AddFriendsOrientationBlind(conn: Connection, db: Db, a: nat, b: nat)
    requires WellFormed(db)
    ensures AddFriendsSpec(conn, db, [b], a) == AddFriendsSpec(conn, db, [a], b)
  {
    AddOneFriend(conn, db, a, b);
    AddOneFriend(conn, db, b, a);
    CanonSymmetric(a, b);
  }

  /** Adding (a, b) and then (b, a) leaves exactly one row, {min, max}. */
  lemma AddBothWaysOneRow(db: Db, a: nat, b: nat)
    requires WellFormed(db) && a != b && a in db.users && b in db.users
    ensures var e1 := AddFriendsSpec(Available, db, [b], a);
            var e2 := AddFriendsSpec(Available, e1.db, [a], b);
            && e1.outcome == Pass && e2.outcome == Pass
            && e2.db.friends == db.friends + {Canon(a, b)}
            && Canon(a, b).first < Canon(a, b).second
            && Friendship(Canon(a, b).second, Canon(a, b).first) !in e2.db.friends
  {
    AddOneFriend(Available, db, a, b);
    var e1 := AddFriendsSpec(Available, db, [b], a);
    AddOneFriend(Available, e1.db, b, a);
    CanonSymmetric(a, b);
  }

  /** Deleting (b, a) removes a stored (a, b): deletion canonicalises the
      pair as insertion did, and touches no other row. */
  lemma DeleteEitherOrientation(db: Db, a: nat, b: nat)
    requires WellFormed(db) && Friendship(a, b) in db.friends
    ensures DeleteFriendsSpec(Available, db, [Friendship(b, a)]).db.friends == db.friends - {Friendship(a, b)}
  {
    assert CanonSet([Friendship(b, a)]) == {Friendship(a, b)};
  }

  /** After DeleteUser, nothing refers to the user: no email of theirs, no
      friend listed for them, and nobody lists them as a friend. */
  lemma {:induction false} DeleteUserCascade(conn: Connection, db: Db, id: nat)
    requires WellFormed(db)
    ensures var e := DeleteUserSpec(conn, db, id);
            e.outcome == Pass ==>
              && id !in e.db.users
              && EmailsOf(e.db, id) == {}
              && FriendIds(e.db, id) == {}
              && forall x :: id !in FriendIds(e.db, x)
  {
    var e := DeleteUserSpec(conn, db, id);
    if e.outcome == Pass {
      assert forall k :: k in e.db.emails ==> e.db.emails[k].userId != id;
      forall u ensures u !in FriendIds(e.db, id) {
        FriendIdsMatchEitherOrientation(e.db, id, u);
      }
      forall x ensures id !in FriendIds(e.db, x) {
        FriendIdsMatchEitherOrientation(e.db, x, id);
      }
    }
  }

  /** A newly created user has no addresses and no friends yet: the id is
      fresh and every row that names a user names an existing one. */
  lemma CreateUserFresh(conn: Connection, db: Db, u: User)
    requires WellFormed(db)
    ensures var c := CreateUserSpec(conn, db, u);
            c.outcome == Pass ==> EmailsOf(c.db, c.id) == {} && FriendIds(c.db, c.id) == {}
  {
    var c := CreateUserSpec(conn, db, u);
    if c.outcome == Pass {
      assert forall k :: k in c.db.emails ==> c.db.emails[k].userId != c.id;
      forall v ensures v !in FriendIds(c.db, c.id) {
        FriendIdsMatchEitherOrientation(c.db, c.id, v);
      }
    }
  }

  /** Rows of a canonical table naming x have distinct other members: no
      friend is listed twice. */
  lemma OtherInjective(db: Db, x: nat, p: Friendship, q: Friendship)
    requires Canonical(db.friends)
    requires p in FriendRows(db, x) && q in FriendRows(db, x) && p != q
    ensures Other(p, x) != Other(q, x)
  {
  }

  // ---------------------------------------------------------------------
  // The loops that queue batch statements

  /** AddUserEmails' loop: one trimmed insert per address, bound to the user. */
  method QueueEmailInserts(userId: nat, emails: seq<string>) returns (batch: seq<Statement>)
    ensures |batch| == |emails|
    ensures forall i :: 0 <= i < |emails| ==> batch[i] == AddEmail(userId, TrimSpace(emails[i]))
  {
    batch := [];
    for i := 0 to |emails|
      invariant |batch| == i
      invariant forall j :: 0 <= j < i ==> batch[j] == AddEmail(userId, TrimSpace(emails[j]))
    {
      batch := batch + [AddEmail(userId, TrimSpace(emails[i]))];
    }
  }

  /** AddUserFriends' loop: skips the user's own id and queues every other
      pair with the smaller id first. */
  method QueueFriendInserts(userId: nat, ids: seq<nat>) returns (batch: seq<Statement>)
    ensures batch == FriendBatch(userId, ids)
  {
    batch := [];
    for i := 0 to |ids|
      invariant batch == FriendBatch(userId, ids[..i])
    {
      var friend := ids[i];
      assert ids[..i + 1][..i] == ids[..i];
      if friend == userId {
        continue;
      }
      if userId < friend {
        batch := batch + [AddFriendship(Friendship(userId, friend))];
      } else {
        batch := batch + [AddFriendship(Friendship(friend, userId))];
      }
    }
    assert ids[..|ids|] == ids;
  }

  /** DeleteEmails' loop: one delete per id. */
  method QueueEmailDeletes(ids: seq<nat>) returns (batch: seq<Statement>)
    ensures |batch| == |ids|
    ensures forall i :: 0 <= i < |ids| ==> batch[i] == DeleteEmail(ids[i])
  {
    batch := [];
    for i := 0 to |ids|
      invariant |batch| == i
      invariant forall j :: 0 <= j < i ==> batch[j] == DeleteEmail(ids[j])
    {
      batch := batch + [DeleteEmail(ids[i])];
    }
  }

  /** DeleteUserFriends' loop: one delete per pair, smaller id first. */
  method QueueFriendDeletes(pairs: seq<Friendship>) returns (batch: seq<Statement>)
    ensures |batch| == |pairs|
    ensures forall i :: 0 <= i < |pairs| ==>
      batch[i].DeleteFriendship? && batch[i].pair.first <= batch[i].pair.second
      && {batch[i].pair.first, batch[i].pair.second} == {pairs[i].first, pairs[i].second}
    ensures batch == FriendDeleteBatch(pairs)
  {
    batch := [];
    for i := 0 to |pairs|
      invariant batch == FriendDeleteBatch(pairs[..i])
    {
      var friends := pairs[i];
      if friends.first < friends.second {
        batch := batch + [DeleteFriendship(Friendship(friends.first, friends.second))];
      } else {
        batch := batch + [DeleteFriendship(Friendship(friends.second, friends.first))];
      }
    }
    assert pairs[..|pairs|] == pairs;
  }

  // ---------------------------------------------------------------------
  // Read results

  /** info is the joined row of user id: its columns and exactly its
      addresses, each once. */
  ghost predicate IsUserInfo(db: Db, id: nat, info: UserInfo) {
    && id in db.users
    && info.id == id && info.user == db.users[id]
    && (forall e :: e in info.emails <==> e in EmailsOf(db, id))
    && Distinct(info.emails)
  }

  /** infos lists every user once, each with its joined row. */
  ghost predicate IsUserListing(db: Db, infos: seq<UserInfo>) {
    && (forall i :: 0 <= i < |infos| ==> IsUserInfo(db, infos[i].id, infos[i]))
    && (forall i, j :: 0 <= i < j < |infos| ==> infos[i].id != infos[j].id)
    && (forall id :: id in db.users ==> exists i :: 0 <= i < |infos| && infos[i].id == id)
  }

  /** es lists exactly the Emails rows of the user, each once. */
  ghost predicate IsEmailListing(db: Db, id: nat, es: seq<Email>) {
    (forall e :: e in es <==> e in EmailsQuery(db, id)) && Distinct(es)
  }

  /** fs lists exactly the friends of x, each friend once. */
  ghost predicate IsFriendListing(db: Db, x: nat, fs: seq<Friend>) {
    && (forall f :: f in fs <==> f in FriendsOf(db, x))
    && (forall i, j :: 0 <= i < j < |fs| ==> fs[i].friendId != fs[j].friendId)
  }

  /** A list built from every matched row once is the friend listing. */
  lemma FriendListing(db: Db, x: nat, fs: seq<Friend>, rows: seq<Friendship>)
    requires Canonical(db.friends)
    requires |rows| == |fs|
    requires forall i :: 0 <= i < |fs| ==> rows[i] in FriendRows(db, x) && fs[i] == FriendEntry(db, rows[i], x)
    requires forall p :: p in FriendRows(db, x) ==> p in rows
    requires forall i, j :: 0 <= i < j < |rows| ==> rows[i] != rows[j]
    ensures IsFriendListing(db, x, fs)
  {
    forall i, j | 0 <= i < j < |fs| ensures fs[i].friendId != fs[j].friendId {
      OtherInjective(db, x, rows[i], rows[j]);
    }
    forall f | f in fs ensures f in FriendsOf(db, x) {
      var i :| 0 <= i < |fs| && fs[i] == f;
      assert Other(rows[i], x) in FriendIds(db, x);
    }
    forall f | f in FriendsOf(db, x) ensures f in fs {
      var p :| p in FriendRows(db, x) && Other(p, x) == f.friendId;
      var i :| 0 <= i < |rows| && rows[i] == p;
      assert fs[i] == f;
    }
  }

  // ---------------------------------------------------------------------
  // The store

  /** The Storage object over the three tables. Its fields are the tables'
      contents and the two serial sequences; each operation reassigns them. */
  class Storage {
    var users: map<nat, User>
    var emails: map<nat, EmailRow>
    var friends: set<Friendship>
    var nextUserId: nat
    var nextEmailId: nat
    /** The schema objects the startup migration has created. */
    ghost const catalog: set<SchemaObject>

    function Tables(): Db
      reads this
    {
      Db(users, emails, friends, nextUserId, nextEmailId)
    }

    ghost predicate Valid()
      reads this
    {
      WellFormed(Tables())
    }

    /** New followed by Migrations on a database without the tables: every
        schema object exists, and the tables are empty. */
    constructor ()
      ensures catalog == Migrate({}, MigrationSteps)
      ensures forall o: SchemaObject :: o in catalog
      ensures Tables() == Empty && Valid()
    {
      catalog := Migrate({}, MigrationSteps);
      users, emails, friends := map[], map[], {};
      nextUserId, nextEmailId := 1, 1;
      MigrateCreatesAll();
    }

    /** Makes d the stored contents. */
    method Commit(d: Db)
      modifies this
      ensures Tables() == d
    {
      users, emails, friends := d.users, d.emails, d.friends;
      nextUserId, nextEmailId := d.nextUserId, d.nextEmailId;
    }

    /** SendBatch(...).Close(): all statements or none. */
    method SendBatch(batch: seq<Statement>) returns (err: Outcome)
      modifies this
      ensures var res := RunBatch(old(Tables()), batch);
              if res.Ok? then err == Pass && Tables() == res.value
              else err == Fail(res.error) && Tables() == old(Tables())
    {
      var res := RunBatch(Tables(), batch);
      if res.Ok? {
        Commit(res.value);
        err := Pass;
      } else {
        err := Fail(res.error);
      }
    }

    method CreateUser(conn: Connection, user: User) returns (id: nat, err: Outcome)
      requires Valid()
      modifies this
      ensures Created(id, err, Tables()) == CreateUserSpec(conn, old(Tables()), user)
      ensures Valid()
    {
      if conn.Unavailable? {
        return 0, Fail(ConnectionFailure(conn));
      }
      var ins := InsertUser(Tables(), user);
      Commit(ins.db);
      return ins.id, Pass;
    }

    method AddUserEmails(conn: Connection, emails: seq<string>, userId: nat) returns (err: Outcome)
      requires Valid()
      modifies this
      ensures Effect(err, Tables()) == AddEmailsSpec(conn, old(Tables()), emails, userId)
      ensures Valid()
    {
      if conn.Unavailable? {
        return Fail(ConnectionFailure(conn));
      }
      if |emails| == 0 {
        return Fail(NotFound);
      }
      var batch := QueueEmailInserts(userId, emails);
      assert batch == EmailBatch(userId, emails);
      err := SendBatch(batch);
    }

    method AddUserFriends(conn: Connection, ids: seq<nat>, userId: nat) returns (err: Outcome)
      requires Valid()
      modifies this
      ensures Effect(err, Tables()) == AddFriendsSpec(conn, old(Tables()), ids, userId)
      ensures Valid()
    {
      if conn.Unavailable? {
        return Fail(ConnectionFailure(conn));
      }
      if |ids| == 0 {
        return Fail(NoFriends);
      }
      var batch := QueueFriendInserts(userId, ids);
      FriendInsertsEffect(Tables(), ids, userId);
      err := SendBatch(batch);
    }

    method UpdateUser(conn: Connection, user: User, id: nat) returns (err: Outcome)
      requires Valid()
      modifies this
      ensures Effect(err, Tables()) == UpdateUserSpec(conn, old(Tables()), user, id)
      ensures Valid()
    {
      if conn.Unavailable? {
        return Fail(ConnectionFailure(conn));
      }
      var tag := UpdateUserRow(Tables(), id, user);
      Commit(tag.db);
      if tag.rows == 0 {
        return Fail(UserNotFound(id));
      }
      return Pass;
    }

    method DeleteUser(conn: Connection, id: nat) returns (err: Outcome)
      requires Valid()
      modifies this
      ensures Effect(err, Tables()) == DeleteUserSpec(conn, old(Tables()), id)
      ensures Valid()
    {
      if conn.Unavailable? {
        return Fail(ConnectionFailure(conn));
      }
      var tag := DeleteUserRow(Tables(), id);
      Commit(tag.db);
      if tag.rows == 0 {
        return Fail(UserNotFound(id));
      }
      return Pass;
    }

    method DeleteEmails(conn: Connection, ids: seq<nat>) returns (err: Outcome)
      requires Valid()
      modifies this
      ensures Effect(err, Tables()) == DeleteEmailsSpec(conn, old(Tables()), ids)
      ensures Valid()
    {
      if conn.Unavailable? {
        return Fail(ConnectionFailure(conn));
      }
      if |ids| == 0 {
        return Fail(NoEmails);
      }
      var batch := QueueEmailDeletes(ids);
      assert batch == EmailDeleteBatch(ids);
      EmailDeletesEffect(Tables(), ids);
      err := SendBatch(batch);
    }

    method DeleteUserFriends(conn: Connection, pairs: seq<Friendship>) returns (err: Outcome)
      requires Valid()
      modifies this
      ensures Effect(err, Tables()) == DeleteFriendsSpec(conn, old(Tables()), pairs)
      ensures Valid()
    {
      if conn.Unavailable? {
        return Fail(ConnectionFailure(conn));
      }
      if |pairs| == 0 {
        return Fail(NoFriends);
      }
      var batch := QueueFriendDeletes(pairs);
      FriendDeletesEffect(Tables(), pairs);
      err := SendBatch(batch);
    }

    /** The addresses the user queries aggregate for one user. */
    method CollectEmails(id: nat) returns (es: seq<string>)
      requires Valid()
      ensures forall e :: e in es <==> e in EmailsOf(Tables(), id)
      ensures Distinct(es)
    {
      es := [];
      var pending := EmailKeysOf(Tables(), id);
      while pending != {}
        invariant pending <= EmailKeysOf(Tables(), id)
        invariant forall k :: k in EmailKeysOf(Tables(), id) && k !in pending ==> emails[k].email in es
        invariant forall e :: e in es ==> e in EmailsOf(Tables(), id)
        invariant forall i, k :: 0 <= i < |es| && k in pending ==> es[i] != emails[k].email
        invariant Distinct(es)
        decreases pending
      {
        var k :| k in pending;
        es := es + [emails[k].email];
        pending := pending - {k};
      }
      forall e | e in EmailsOf(Tables(), id) ensures e in es {
        var k :| k in emails && emails[k].userId == id && emails[k].email == e;
        assert k in EmailKeysOf(Tables(), id);
      }
    }

    /** GetUserInfoByID: the joined row of that user; a missing user is
        ErrNotFound (QueryRow finds no row). */
    method GetUserInfoByID(conn: Connection, id: nat) returns (r: Result<UserInfo>)
      requires Valid()
      ensures conn.Unavailable? ==> r == Err(ConnectionFailure(conn))
      ensures conn.Available? && id !in users ==> r == Err(NotFound)
      ensures conn.Available? && id in users ==> r.Ok? && IsUserInfo(Tables(), id, r.value)
    {
      if conn.Unavailable? {
        return Err(ConnectionFailure(conn));
      }
      if id !in users {
        return Err(NotFound);
      }
      var es := CollectEmails(id);
      return Ok(UserInfo(id, users[id], es));
    }

    /** GetAllUsersInfo: one joined row per user (possibly none: an empty
        table is not an error). */
    method GetAllUsersInfo(conn: Connection) returns (r: Result<seq<UserInfo>>)
      requires Valid()
      ensures conn.Unavailable? ==> r == Err(ConnectionFailure(conn))
      ensures conn.Available? ==> r.Ok? && IsUserListing(Tables(), r.value)
    {
      if conn.Unavailable? {
        return Err(ConnectionFailure(conn));
      }
      var infos: seq<UserInfo> := [];
      var pending := users.Keys;
      while pending != {}
        invariant pending <= users.Keys
        invariant forall i :: 0 <= i < |infos| ==> IsUserInfo(Tables(), infos[i].id, infos[i])
        invariant forall i :: 0 <= i < |infos| ==> infos[i].id !in pending
        invariant forall i, j :: 0 <= i < j < |infos| ==> infos[i].id != infos[j].id
        invariant forall id :: id in users && id !in pending ==> exists i :: 0 <= i < |infos| && infos[i].id == id
        decreases pending
      {
        var id :| id in pending;
        var es := CollectEmails(id);
        var info := UserInfo(id, users[id], es);
        ghost var before := infos;
        infos := infos + [info];
        forall u | u in users && u !in pending - {id}
          ensures exists i :: 0 <= i < |infos| && infos[i].id == u
        {
          if u == id {
            assert infos[|infos| - 1].id == u;
          } else {
            var i :| 0 <= i < |before| && before[i].id == u;
            assert infos[i].id == u;
          }
        }
        pending := pending - {id};
      }
      return Ok(infos);
    }

    /** GetAllUserEmails: the Emails rows of the user (possibly none). */
    method GetAllUserEmails(conn: Connection, id: nat) returns (r: Result<seq<Email>>)
      requires Valid()
      ensures conn.Unavailable? ==> r == Err(ConnectionFailure(conn))
      ensures conn.Available? ==> r.Ok? && IsEmailListing(Tables(), id, r.value)
    {
      if conn.Unavailable? {
        return Err(ConnectionFailure(conn));
      }
      var es: seq<Email> := [];
      var pending := EmailKeysOf(Tables(), id);
      while pending != {}
        invariant pending <= EmailKeysOf(Tables(), id)
        invariant forall k :: k in EmailKeysOf(Tables(), id) && k !in pending ==> Email(k, id, emails[k].email) in es
        invariant forall e :: e in es ==> e in EmailsQuery(Tables(), id)
        invariant forall i :: 0 <= i < |es| ==> es[i].id !in pending
        invariant Distinct(es)
        decreases pending
      {
        var k :| k in pending;
        es := es + [Email(k, id, emails[k].email)];
        pending := pending - {k};
      }
      forall e | e in EmailsQuery(Tables(), id) ensures e in es {
        var k :| k in emails && emails[k].userId == id && e == Email(k, id, emails[k].email);
        assert k in EmailKeysOf(Tables(), id);
      }
      return Ok(es);
    }

    /** GetUserFriends: one entry per Friends row naming the user, whichever
        column the user is in. */
    method GetUserFriends(conn: Connection, id: nat) returns (r: Result<seq<Friend>>)
      requires Valid()
      ensures conn.Unavailable? ==> r == Err(ConnectionFailure(conn))
      ensures conn.Available? ==> r.Ok? && IsFriendListing(Tables(), id, r.value)
    {
      if conn.Unavailable? {
        return Err(ConnectionFailure(conn));
      }
      var db := Tables();
      var fs: seq<Friend> := [];
      ghost var rows: seq<Friendship> := [];
      var pending := FriendRows(db, id);
      while pending != {}
        invariant pending <= FriendRows(db, id)
        invariant |rows| == |fs|
        invariant forall i :: 0 <= i < |fs| ==>
          rows[i] in FriendRows(db, id) && rows[i] !in pending && fs[i] == FriendEntry(db, rows[i], id)
        invariant forall p :: p in FriendRows(db, id) && p !in pending ==> p in rows
        invariant forall i, j :: 0 <= i < j < |rows| ==> rows[i] != rows[j]
        decreases pending
      {
        var p :| p in pending;
        var u := Other(p, id);
        fs := fs + [Friend(u, users[u].name)];
        rows := rows + [p];
        pending := pending - {p};
      }
      FriendListing(db, id, fs, rows);
      return Ok(fs);
    }
  }
}
