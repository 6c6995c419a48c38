/** Record shapes of the people service (internal/types/types.go) and the
    error vocabulary that the storage and use-case layers return. */
module Types {

  /** Go's uint8, the width of User.Age. */
  type Byte = x: int | 0 <= x < 256

  datatype Name = Name(firstName: string, lastName: string)

  /** A person as stored in the Users table (id excluded). */
  datatype User = User(name: Name, gender: string, nationality: string, age: Byte)

  /** A user row joined with the addresses it owns. */
  datatype UserInfo = UserInfo(id: nat, user: User, emails: seq<string>)

  datatype Email = Email(id: nat, userId: nat, email: string)

  /** An (ordered) pair of user ids, as stored in the Friends table. */
  datatype Friendship = Friendship(first: nat, second: nat)

  /** One entry of a friend listing: the friend's id and name. */
  datatype Friend = Friend(friendId: nat, name: Name)

  /** The errors storage and the use case return. Only NotFound is the sentinel
      types.ErrNotFound; UserNotFound is a formatted message that does not
      wrap it. */
  datatype Error =
    | NotFound                    // types.ErrNotFound
    | NoFriends                   // errors.New("No friends")
    | NoEmails                    // errors.New("No emails")
    | UserNotFound(id: nat)       // fmt.Errorf("Not found user with id %d", id)
    | ForeignKeyViolation         // a FOREIGN KEY constraint rejected a row
    | DatabaseError(cause: string) // no pooled connection, or the round trip failed
    | LookupError(cause: string)  // an enrichment lookup failed

  /** errors.Is(err, types.ErrNotFound): nothing in storage or the use case
      wraps the sentinel. */
  predicate IsNotFound(e: Error) {
    e.NotFound?
  }

  /** A value or the error returned beside Go's zero value. */
  datatype Result<T> = Ok(value: T) | Err(error: Error)

  /** A Go `error` return: nil or an error. */
  datatype Outcome = Pass | Fail(error: Error)

  /** Whether a database connection can be acquired from the pool. */
  datatype Connection = Available | Unavailable(cause: string)
}
