/**
 * The browser's session state held by the authentication context: the
 * signed-in user, the salt, the master password (kept only in memory) and
 * the authenticated flag. `""` stands for a string field that is null.
 */
module Session {
  import opened Wrappers

  /** The user record the login endpoint returns. Ids start at 1. */
  datatype User = User(id: nat, username: string)

  class AuthState {
    var user: Option<User>
    var salt: string
    var masterPassword: string
    var isAuthenticated: bool

    /**
     * The provider's start-up: a user and salt saved by an earlier login are
     * restored when both are present, but the master password never is, and
     * the session is not marked authenticated.
     */
    constructor (savedUser: Option<User>, savedSalt: string)
      ensures savedUser.Some? && savedSalt != [] ==> user == savedUser && salt == savedSalt
      ensures !(savedUser.Some? && savedSalt != []) ==> user == None && salt == []
      ensures masterPassword == [] && !isAuthenticated
    {
      if savedUser.Some? && savedSalt != [] {
        user := savedUser;
        salt := savedSalt;
      } else {
        user := None;
        salt := [];
      }
      masterPassword := [];
      isAuthenticated := false;
    }

    /** `login`: all four fields are replaced, whatever they held. */
    method Login(userData: User, userSalt: string, password: string)
      modifies this
      ensures user == Some(userData) && salt == userSalt && masterPassword == password
      ensures isAuthenticated
    {
      user := Some(userData);
      salt := userSalt;
      masterPassword := password;
      isAuthenticated := true;
    }

    /** `logout`: every field is cleared. */
    method Logout()
      modifies this
      ensures user == None && salt == [] && masterPassword == [] && !isAuthenticated
    {
      user := None;
      salt := [];
      masterPassword := [];
      isAuthenticated := false;
    }

    /** Everything the dashboard needs to derive the vault key is present. */
    predicate CanUnlock()
      reads this
    {
      user.Some? && salt != [] && masterPassword != []
    }

    /**
     * The dashboard's start-up test: a user and salt without a master password
     * means the master password must be entered again.
     */
    predicate NeedsMasterPassword()
      reads this
      ensures NeedsMasterPassword() ==> !CanUnlock()
    {
      user.Some? && salt != [] && masterPassword == []
    }
  }

  /** A restored session never unlocks the vault until the master password is re-entered. */
  method RestoredSessionIsLocked(savedUser: User, savedSalt: string) returns (s: AuthState)
    requires savedSalt != []
    ensures s.NeedsMasterPassword() && !s.CanUnlock() && !s.isAuthenticated
  {
    s := new AuthState(Some(savedUser), savedSalt);
  }
}
