/**
 * The account endpoints (register, login, verify, salt) as operations on the
 * users table, keyed by the unique username. Request fields the client leaves
 * out are `""`, which JavaScript treats as missing.
 */
module AuthRoutes {

  /** A row of `users`. The hash is whatever the browser sent; the server never derives it. */
  datatype UserRow = UserRow(id: nat, username: string, hash: string, salt: string)

  datatype PublicUser = PublicUser(id: nat, username: string)

  datatype Body =
    | Failure(error: string)
    | Registered(message: string, userId: nat)
    | LoggedIn(message: string, user: PublicUser, salt: string)
    | Verified(message: string)
    | SaltOf(salt: string)

  datatype Response = Response(status: nat, body: Body)

  const RegisterFieldsRequired := "Username, master password hash, and salt are required"
  const UsernameTaken := "Username already exists"
  const RegisteredMessage := "User registered successfully"
  const LoginFieldsRequired := "Username and master password hash are required"
  const InvalidCredentials := "Invalid credentials"
  const LoginSuccessful := "Login successful"
  const InvalidMasterPassword := "Invalid master password"
  const VerifiedMessage := "Master password verified successfully"
  const UsernameRequired := "Username is required"
  const UserNotFound := "User not found"

  class UserTable {
    /** The rows by username (the column is UNIQUE). */
    var users: map<string, UserRow>
    /** The AUTOINCREMENT counter: the id the next insert receives. */
    var nextId: nat

    ghost predicate Valid()
      reads this
    {
      nextId >= 1
      && (forall u :: u in users ==> users[u].username == u && 1 <= users[u].id < nextId)
      && (forall u, v :: u in users && v in users && u != v ==> users[u].id != users[v].id)
    }

    constructor ()
      ensures Valid() && users == map[] && nextId == 1
    {
      users := map[];
      nextId := 1;
    }

    /**
     * `POST /register`: 400 when a field is missing, 409 when the username
     * exists, otherwise one new row and 201 with its id.
     */
    method Register(username: string, hash: string, salt: string) returns (r: Response)
      requires Valid()
      modifies this
      ensures Valid()
      ensures username == [] || hash == [] || salt == [] ==>
        r == Response(400, Failure(RegisterFieldsRequired)) && users == old(users) && nextId == old(nextId)
      ensures username != [] && hash != [] && salt != [] && username in old(users) ==>
        r == Response(409, Failure(UsernameTaken)) && users == old(users) && nextId == old(nextId)
      ensures username != [] && hash != [] && salt != [] && username !in old(users) ==>
        r == Response(201, Registered(RegisteredMessage, old(nextId)))
        && users == old(users)[username := UserRow(old(nextId), username, hash, salt)]
        && nextId == old(nextId) + 1
      ensures r.status == 201 ==> Login(username, hash).status == 200 && SaltLookup(username) == Response(200, SaltOf(salt))
    {
      if username == [] || hash == [] || salt == [] {
        return Response(400, Failure(RegisterFieldsRequired));
      }
      if username in users {
        return Response(409, Failure(UsernameTaken));
      }
      var row := UserRow(nextId, username, hash, salt);
      users := users[username := row];
      r := Response(201, Registered(RegisteredMessage, nextId));
      nextId := nextId + 1;
    }

    /**
     * `POST /login`: an unknown username and a wrong hash get the same 401;
     * success needs the exact stored hash and returns id, username and salt.
     */
    function Login(username: string, hash: string): (r: Response)
      reads this
      ensures username == [] || hash == [] ==> r == Response(400, Failure(LoginFieldsRequired))
      ensures r.status == 401 <==> username != [] && hash != [] && (username !in users || users[username].hash != hash)
      ensures r.status == 401 ==> r.body == Failure(InvalidCredentials)
      ensures r.status == 200 <==> username != [] && hash != [] && username in users && users[username].hash == hash
      ensures r.status == 200 ==>
        r.body == LoggedIn(LoginSuccessful, PublicUser(users[username].id, users[username].username), users[username].salt)
    {
      if username == [] || hash == [] then Response(400, Failure(LoginFieldsRequired))
      else if username !in users then Response(401, Failure(InvalidCredentials))
      else if hash != users[username].hash then Response(401, Failure(InvalidCredentials))
      else
        var user := users[username];
        Response(200, LoggedIn(LoginSuccessful, PublicUser(user.id, user.username), user.salt))
    }

    /**
     * `POST /verify`: unlike login, an unknown user ('Invalid credentials') and
     * a wrong hash ('Invalid master password') get different answers.
     */
    function Verify(username: string, hash: string): (r: Response)
      reads this
      ensures username == [] || hash == [] ==> r == Response(400, Failure(LoginFieldsRequired))
      ensures username != [] && hash != [] && username !in users ==> r == Response(401, Failure(InvalidCredentials))
      ensures username != [] && hash != [] && username in users && users[username].hash != hash ==>
        r == Response(401, Failure(InvalidMasterPassword))
      ensures r.status == 200 <==> username != [] && hash != [] && username in users && users[username].hash == hash
    {
      if username == [] || hash == [] then Response(400, Failure(LoginFieldsRequired))
      else if username !in users then Response(401, Failure(InvalidCredentials))
      else if hash != users[username].hash then Response(401, Failure(InvalidMasterPassword))
      else Response(200, Verified(VerifiedMessage))
    }

    /** `GET /salt/:username`: 404 for an unknown username, else the stored salt. */
    function SaltLookup(username: string): (r: Response)
      reads this
      ensures username == [] ==> r == Response(400, Failure(UsernameRequired))
      ensures username != [] && username !in users ==> r == Response(404, Failure(UserNotFound))
      ensures username != [] && username in users ==> r == Response(200, SaltOf(users[username].salt))
    {
      if username == [] then Response(400, Failure(UsernameRequired))
      else if username !in users then Response(404, Failure(UserNotFound))
      else Response(200, SaltOf(users[username].salt))
    }

    /** Login cannot tell an unknown user from a wrong hash; verify can. */
    lemma LoginHidesWhatVerifyReveals(known: string, unknown: string, wrongHash: string, otherHash: string)
      requires known in users && known != [] && wrongHash != [] && users[known].hash != wrongHash
      requires unknown !in users && unknown != [] && otherHash != []
      ensures Login(known, wrongHash) == Login(unknown, otherHash)
      ensures Verify(known, wrongHash) != Verify(unknown, otherHash)
    {
    }

    /** The salt endpoint answers whether a username is registered. */
    lemma SaltRevealsRegistration(username: string)
      requires username != []
      ensures SaltLookup(username).status == 200 <==> username in users
    {
    }
  }
}
