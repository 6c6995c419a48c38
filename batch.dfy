/** The batches the storage layer queues (internal/repository/storage/storage.go)
    and what sending one does to the tables. A batch is sent in one round
    trip and runs as one implicit transaction: statements run in order, and
    the first one that fails aborts the batch, leaving every table as it was. */
module Batch {
  import opened Types
  import opened Schema
  import opened Templates
  import opened Text

  /** The ascending order AddUserFriends and DeleteUserFriends put a pair in,
      so that (a, b) and (b, a) name the same row. */
  function Canon(a: nat, b: nat): (p: Friendship)
    ensures p.first <= p.second
    ensures {p.first, p.second} == {a, b}
    ensures a != b ==> p.first < p.second
  {
    if a < b then Friendship(a, b) else Friendship(b, a)
  }

  /** The order of the two ids does not matter. */
  lemma CanonSymmetric(a: nat, b: nat)
    ensures Canon(a, b) == Canon(b, a)
  {
  }

  /** The statements AddUserEmails queues: one insert per address, trimmed
      and bound to the user. */
  function EmailBatch(userId: nat, emails: seq<string>): seq<Statement> {
    seq(|emails|, i requires 0 <= i < |emails| => AddEmail(userId, TrimSpace(emails[i])))
  }

  /** The statements AddUserFriends queues: a canonical insert for every id
      other than the user's own, in input order. */
  function FriendBatch(userId: nat, ids: seq<nat>): (batch: seq<Statement>)
    ensures |batch| <= |ids|
    ensures forall s :: s in batch ==> s.AddFriendship? && s.pair.first < s.pair.second
    ensures forall s :: s in batch ==> s.pair.first == userId || s.pair.second == userId
    ensures forall s :: s in batch ==> exists f :: f in ids && f != userId && s.pair == Canon(userId, f)
    ensures forall f :: f in ids && f != userId ==> AddFriendship(Canon(userId, f)) in batch
    decreases |ids|
  {
    if ids == [] then []
    else
      var init := FriendBatch(userId, ids[..|ids| - 1]);
      var f := ids[|ids| - 1];
      assert ids == ids[..|ids| - 1] + [f];
      if f == userId then init else init + [AddFriendship(Canon(userId, f))]
  }

  /** The statements DeleteEmails queues: one delete per id. */
  function EmailDeleteBatch(ids: seq<nat>): seq<Statement> {
    seq(|ids|, i requires 0 <= i < |ids| => DeleteEmail(ids[i]))
  }

  /** The statements DeleteUserFriends queues: one delete per pair, put in
      canonical order. */
  function FriendDeleteBatch(pairs: seq<Friendship>): seq<Statement> {
    seq(|pairs|, i requires 0 <= i < |pairs| => DeleteFriendship(Canon(pairs[i].first, pairs[i].second)))
  }

  /** Sending a batch: statements in order, the first error aborts. */
  function RunBatch(db: Db, batch: seq<Statement>): Result<Db>
    decreases |batch|
  {
    if batch == [] then Ok(db)
    else
      match RunBatch(db, batch[..|batch| - 1])
      case Err(e) => Err(e)
      case Ok(d) => Exec(d, batch[|batch| - 1])
  }

  /** Sending a + b is sending a and then, unless a failed, sending b to the
      tables a left: a failure stops the batch at that statement. */
  lemma {:induction false} RunBatchAppend(db: Db, a: seq<Statement>, b: seq<Statement>)
    ensures RunBatch(db, a + b) ==
      match RunBatch(db, a)
      case Err(e) => Err(e)
      case Ok(d) => RunBatch(d, b)
    decreases |b|
  {
    if b == [] {
      assert a + b == a;
    } else {
      var b' := b[..|b| - 1];
      assert (a + b)[..|a + b| - 1] == a + b';
      assert (a + b)[|a + b| - 1] == b[|b| - 1];
      RunBatchAppend(db, a, b');
    }
  }

  /** The address values a batch inserts. */
  function BatchEmails(batch: seq<Statement>): set<string> {
    set s | s in batch && s.AddEmail? :: s.email
  }

  /** The pairs a batch inserts or deletes. */
  function BatchPairs(batch: seq<Statement>): set<Friendship> {
    set s | s in batch && (s.AddFriendship? || s.DeleteFriendship?) :: s.pair
  }

  /** The email ids a batch deletes. */
  function BatchEmailIds(batch: seq<Statement>): set<nat> {
    set s | s in batch && s.DeleteEmail? :: s.id
  }

  /** d is db with the given values added to Emails, every new row owned by
      userId, and nothing else changed. */
  ghost predicate EmailsAdded(db: Db, d: Db, userId: nat, values: set<string>) {
    && d.users == db.users && d.friends == db.friends && d.nextUserId == db.nextUserId
    && SerialsFresh(d)
    && EmailValues(d.emails) == EmailValues(db.emails) + values
    && (forall k :: k in db.emails ==> k in d.emails && d.emails[k] == db.emails[k])
    && (forall k :: k in d.emails && k !in db.emails ==> d.emails[k].userId == userId)
  }

  /** What a successful batch of email inserts for one user leaves behind:
      every value of the batch is stored, every new row is the user's, and
      the other tables are untouched. */
  lemma {:induction false} RunEmailInsertsAdds(db: Db, userId: nat, batch: seq<Statement>)
    requires SerialsFresh(db)
    requires forall s :: s in batch ==> s.AddEmail? && s.userId == userId
    ensures RunBatch(db, batch).Ok? ==> EmailsAdded(db, RunBatch(db, batch).value, userId, BatchEmails(batch))
    decreases |batch|
  {
    if batch == [] {
      assert BatchEmails(batch) == {};
    } else {
      var init := batch[..|batch| - 1];
      var last := batch[|batch| - 1];
      assert batch == init + [last];
      assert forall s :: s in init ==> s in batch;
      assert last in batch;
      RunEmailInsertsAdds(db, userId, init);
      assert BatchEmails(batch) == BatchEmails(init) + {last.email};
      if RunBatch(db, init).Ok? {
        var d := RunBatch(db, init).value;
        assert RunBatch(db, batch) == InsertEmail(d, userId, last.email);
        if InsertEmail(d, userId, last.email).Ok? {
          EmailsAddedStep(db, d, userId, BatchEmails(init), last.email);
        }
      }
    }
  }

  /** One more insert extends what a batch of inserts has added. */
  lemma EmailsAddedStep(db: Db, d: Db, userId: nat, values: set<string>, email: string)
    requires EmailsAdded(db, d, userId, values)
    requires InsertEmail(d, userId, email).Ok?
    ensures EmailsAdded(db, InsertEmail(d, userId, email).value, userId, values + {email})
  {
    var d' := InsertEmail(d, userId, email).value;
    assert SerialsFresh(d');
    assert EmailValues(d'.emails) == EmailValues(d.emails) + {email};
    assert EmailValues(d'.emails) == EmailValues(db.emails) + (values + {email});
    forall k | k in db.emails ensures k in d'.emails && d'.emails[k] == db.emails[k] {
      assert k in d.emails;
    }
    forall k | k in d'.emails && k !in db.emails ensures d'.emails[k].userId == userId {
      if k in d.emails { assert d'.emails[k] == d.emails[k]; }
    }
  }

  /** Running a batch of email inserts for one user fails, with a foreign key
      violation, exactly when the user does not exist and some value of the
      batch is not stored yet. */
  lemma {:induction false} RunEmailInserts(db: Db, userId: nat, batch: seq<Statement>)
    requires SerialsFresh(db)
    requires forall s :: s in batch ==> s.AddEmail? && s.userId == userId
    ensures RunBatch(db, batch).Ok? <==>
      userId in db.users || forall s :: s in batch ==> s.email in EmailValues(db.emails)
    ensures RunBatch(db, batch).Err? ==> RunBatch(db, batch).error == ForeignKeyViolation
    decreases |batch|
  {
    if batch != [] {
      var init := batch[..|batch| - 1];
      var last := batch[|batch| - 1];
      assert batch == init + [last];
      assert forall s :: s in init ==> s in batch;
      assert last in batch;
      RunEmailInserts(db, userId, init);
      if RunBatch(db, init).Err? {
        var s :| s in init && s.email !in EmailValues(db.emails);
        assert s in batch;
      } else {
        var d := RunBatch(db, init).value;
        RunEmailInsertsAdds(db, userId, init);
        assert RunBatch(db, batch) == InsertEmail(d, userId, last.email);
        if userId !in db.users {
          assert BatchEmails(init) <= EmailValues(db.emails);
          assert EmailValues(d.emails) == EmailValues(db.emails);
        }
      }
    }
  }

  /** A batch of email inserts keeps every schema constraint. */
  lemma {:induction false} RunEmailInsertsConsistent(db: Db, batch: seq<Statement>)
    requires Consistent(db)
    requires forall s :: s in batch ==> s.AddEmail?
    ensures RunBatch(db, batch).Ok? ==> Consistent(RunBatch(db, batch).value)
    decreases |batch|
  {
    if batch != [] {
      var init := batch[..|batch| - 1];
      assert forall s :: s in init ==> s in batch;
      RunEmailInsertsConsistent(db, init);
    }
  }

  /** Running a batch of friendship inserts: it fails, with a foreign key
      violation, exactly when some pair names a missing user; otherwise every
      pair is stored once. */
  lemma {:induction false} RunFriendInserts(db: Db, batch: seq<Statement>)
    requires FriendsExist(db)
    requires forall s :: s in batch ==> s.AddFriendship?
    ensures RunBatch(db, batch).Ok? <==>
      forall s :: s in batch ==> s.pair.first in db.users && s.pair.second in db.users
    ensures RunBatch(db, batch).Err? ==> RunBatch(db, batch).error == ForeignKeyViolation
    ensures RunBatch(db, batch).Ok? ==> RunBatch(db, batch).value == db.(friends := db.friends + BatchPairs(batch))
    decreases |batch|
  {
    if batch == [] {
      assert BatchPairs(batch) == {};
    } else {
      var init := batch[..|batch| - 1];
      var last := batch[|batch| - 1];
      assert batch == init + [last];
      assert forall s :: s in init ==> s in batch;
      RunFriendInserts(db, init);
      assert BatchPairs(batch) == BatchPairs(init) + {last.pair};
      match RunBatch(db, init)
      case Err(e) =>
        var s :| s in init && !(s.pair.first in db.users && s.pair.second in db.users);
        assert s in batch;
      case Ok(d) =>
        assert FriendsExist(d);
    }
  }

  /** Running a batch of friendship deletes removes exactly its pairs. */
  lemma {:induction false} RunFriendDeletes(db: Db, batch: seq<Statement>)
    requires forall s :: s in batch ==> s.DeleteFriendship?
    ensures RunBatch(db, batch) == Ok(db.(friends := db.friends - BatchPairs(batch)))
    decreases |batch|
  {
    if batch == [] {
      assert BatchPairs(batch) == {};
      assert db.friends - {} == db.friends;
    } else {
      var init := batch[..|batch| - 1];
      var last := batch[|batch| - 1];
      assert batch == init + [last];
      assert forall s :: s in init ==> s in batch;
      assert last in batch && last.DeleteFriendship?;
      RunFriendDeletes(db, init);
      assert BatchPairs(batch) == BatchPairs(init) + {last.pair};
      var d := RunBatch(db, init).value;
      assert RunBatch(db, batch) == Exec(d, last);
      assert d.friends - {last.pair} == db.friends - BatchPairs(batch);
    }
  }

  /** Running a batch of email deletes removes exactly the rows with its ids;
      absent ids are ignored. */
  lemma {:induction false} RunEmailDeletes(db: Db, batch: seq<Statement>)
    requires forall s :: s in batch ==> s.DeleteEmail?
    ensures RunBatch(db, batch) == Ok(db.(emails := db.emails - BatchEmailIds(batch)))
    decreases |batch|
  {
    if batch == [] {
      assert BatchEmailIds(batch) == {};
      assert db.emails - {} == db.emails;
    } else {
      var init := batch[..|batch| - 1];
      var last := batch[|batch| - 1];
      assert batch == init + [last];
      assert forall s :: s in init ==> s in batch;
      assert last in batch && last.DeleteEmail?;
      RunEmailDeletes(db, init);
      assert BatchEmailIds(batch) == BatchEmailIds(init) + {last.id};
      var d := RunBatch(db, init).value;
      assert RunBatch(db, batch) == Exec(d, last);
      assert d.emails - {last.id} == db.emails - BatchEmailIds(batch);
    }
  }
}
