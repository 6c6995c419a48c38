/** The orchestration layer of internal/usecase/usecase.go: CreateUser looks
    up age, gender and nationality before the single storage insert; the
    other operations forward to storage, keeping ErrNotFound and passing
    every other error through. */
module UseCase {
  import opened Types
  import opened Schema
  import opened Templates
  import opened Storage

  /** The three enrichment lookups, each a fallible function of the first
      name; the HTTP requests behind them are not part of this model. */
  datatype Enrichment = Enrichment(
    age: string -> Result<Byte>,
    gender: string -> Result<string>,
    nationality: string -> Result<string>)

  /** The error translation of the read wrappers: ErrNotFound is returned as
      ErrNotFound, any other error as it is, a result as it is. */
  function ForwardRead<T>(r: Result<T>): (o: Result<T>)
    ensures r.Ok? ==> o == r
    ensures r.Err? ==> o.Err? && (IsNotFound(o.error) <==> IsNotFound(r.error))
  {
    if r.Err? && IsNotFound(r.error) then Err(NotFound) else r
  }

  /** Since nothing in storage or the use case wraps ErrNotFound, the
      translation returns exactly what storage returned. */
  lemma ForwardReadIdentity<T>(r: Result<T>)
    ensures ForwardRead(r) == r
  {
  }

  /** CreateUser: Age, then Gender, then Nationality of the first name; the
      first lookup that fails is returned with id 0 and nothing written.
      Otherwise the user built from the name and the three values is
      inserted, and storage's id (or error) is returned. */
  function CreateUserFlow(conn: Connection, db: Db, enrichment: Enrichment, fullName: Name): (r: Created)
    requires WellFormed(db)
    ensures var age := enrichment.age(fullName.firstName);
            var gender := enrichment.gender(fullName.firstName);
            var nationality := enrichment.nationality(fullName.firstName);
            && (age.Err? ==> r.outcome == Fail(age.error))
            && (age.Ok? && gender.Err? ==> r.outcome == Fail(gender.error))
            && (age.Ok? && gender.Ok? && nationality.Err? ==> r.outcome == Fail(nationality.error))
            && (r.outcome == Pass <==> conn.Available? && age.Ok? && gender.Ok? && nationality.Ok?)
            && (r.outcome == Pass ==>
                  && 1 <= r.id && r.id !in db.users
                  && r.db.users == db.users[r.id := User(fullName, gender.value, nationality.value, age.value)]
                  && r.db.emails == db.emails && r.db.friends == db.friends)
    ensures var age := enrichment.age(fullName.firstName);
            var gender := enrichment.gender(fullName.firstName);
            var nationality := enrichment.nationality(fullName.firstName);
            age.Ok? && gender.Ok? && nationality.Ok? ==>
              r.outcome == CreateUserSpec(conn, db, User(fullName, gender.value, nationality.value, age.value)).outcome
    ensures r.outcome.Fail? ==> r.id == 0 && r.db == db
    ensures WellFormed(r.db)
  {
    var age := enrichment.age(fullName.firstName);
    if age.Err? then Created(0, Fail(age.error), db)
    else
      var gender := enrichment.gender(fullName.firstName);
      if gender.Err? then Created(0, Fail(gender.error), db)
      else
        var nationality := enrichment.nationality(fullName.firstName);
        if nationality.Err? then Created(0, Fail(nationality.error), db)
        else
          var user := User(Name(fullName.firstName, fullName.lastName), gender.value, nationality.value, age.value);
          CreateUserSpec(conn, db, user)
  }

  /** The UseCase object: the storage it forwards to and the lookups it
      enriches new users with. */
  class UseCase {
    const storage: Storage
    const enrichment: Enrichment

    constructor (storage: Storage, enrichment: Enrichment)
      ensures this.storage == storage && this.enrichment == enrichment
    {
      this.storage := storage;
      this.enrichment := enrichment;
    }

    method GetUserInfoByID(conn: Connection, id: nat) returns (r: Result<UserInfo>)
      requires storage.Valid()
      ensures conn.Unavailable? ==> r == Err(ConnectionFailure(conn))
      ensures conn.Available? && id !in storage.users ==> r == Err(NotFound)
      ensures conn.Available? && id in storage.users ==> r.Ok? && IsUserInfo(storage.Tables(), id, r.value)
    {
      var user := storage.GetUserInfoByID(conn, id);
      r := ForwardRead(user);
    }

    method GetAllUsersInfo(conn: Connection) returns (r: Result<seq<UserInfo>>)
      requires storage.Valid()
      ensures conn.Unavailable? ==> r == Err(ConnectionFailure(conn))
      ensures conn.Available? ==> r.Ok? && IsUserListing(storage.Tables(), r.value)
    {
      var users := storage.GetAllUsersInfo(conn);
      r := ForwardRead(users);
    }

    method GetAllUserEmails(conn: Connection, id: nat) returns (r: Result<seq<Email>>)
      requires storage.Valid()
      ensures conn.Unavailable? ==> r == Err(ConnectionFailure(conn))
      ensures conn.Available? ==> r.Ok? && IsEmailListing(storage.Tables(), id, r.value)
    {
      var emails := storage.GetAllUserEmails(conn, id);
      r := ForwardRead(emails);
    }

    method GetUserFriends(conn: Connection, id: nat) returns (r: Result<seq<Friend>>)
      requires storage.Valid()
      ensures conn.Unavailable? ==> r == Err(ConnectionFailure(conn))
      ensures conn.Available? ==> r.Ok? && IsFriendListing(storage.Tables(), id, r.value)
    {
      var friends := storage.GetUserFriends(conn, id);
      r := ForwardRead(friends);
    }

    method CreateUser(conn: Connection, fullName: Name) returns (id: nat, err: Outcome)
      requires storage.Valid()
      modifies storage
      ensures Created(id, err, storage.Tables()) == CreateUserFlow(conn, old(storage.Tables()), enrichment, fullName)
      ensures storage.Valid()
    {
      var age := enrichment.age(fullName.firstName);
      if age.Err? {
        return 0, Fail(age.error);
      }
      var gender := enrichment.gender(fullName.firstName);
      if gender.Err? {
        return 0, Fail(gender.error);
      }
      var nationality := enrichment.nationality(fullName.firstName);
      if nationality.Err? {
        return 0, Fail(nationality.error);
      }
      var user := User(Name(fullName.firstName, fullName.lastName), gender.value, nationality.value, age.value);
      id, err := storage.CreateUser(conn, user);
      if err.Fail? {
        return 0, err;
      }
    }

    method AddUserEmails(conn: Connection, emails: seq<string>, id: nat) returns (err: Outcome)
      requires storage.Valid()
      modifies storage
      ensures Effect(err, storage.Tables()) == AddEmailsSpec(conn, old(storage.Tables()), emails, id)
      ensures storage.Valid()
    {
      err := storage.AddUserEmails(conn, emails, id);
    }

    method AddUserFriends(conn: Connection, friends: seq<nat>, userId: nat) returns (err: Outcome)
      requires storage.Valid()
      modifies storage
      ensures Effect(err, storage.Tables()) == AddFriendsSpec(conn, old(storage.Tables()), friends, userId)
      ensures storage.Valid()
    {
      err := storage.AddUserFriends(conn, friends, userId);
    }

    method UpdateUser(conn: Connection, user: User, id: nat) returns (err: Outcome)
      requires storage.Valid()
      modifies storage
      ensures Effect(err, storage.Tables()) == UpdateUserSpec(conn, old(storage.Tables()), user, id)
      ensures storage.Valid()
    {
      err := storage.UpdateUser(conn, user, id);
    }

    method DeleteUser(conn: Connection, id: nat) returns (err: Outcome)
      requires storage.Valid()
      modifies storage
      ensures Effect(err, storage.Tables()) == DeleteUserSpec(conn, old(storage.Tables()), id)
      ensures storage.Valid()
    {
      err := storage.DeleteUser(conn, id);
    }

    method DeleteEmails(conn: Connection, emails: seq<nat>) returns (err: Outcome)
      requires storage.Valid()
      modifies storage
      ensures Effect(err, storage.Tables()) == DeleteEmailsSpec(conn, old(storage.Tables()), emails)
      ensures storage.Valid()
    {
      err := storage.DeleteEmails(conn, emails);
    }

    method DeleteUserFriends(conn: Connection, friendsPairs: seq<Friendship>) returns (err: Outcome)
      requires storage.Valid()
      modifies storage
      ensures Effect(err, storage.Tables()) == DeleteFriendsSpec(conn, old(storage.Tables()), friendsPairs)
      ensures storage.Valid()
    {
      err := storage.DeleteUserFriends(conn, friendsPairs);
    }
  }
}
