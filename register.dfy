/**
 * The registration form: the two client-side checks in front of the
 * request, the salt and login hash the browser computes, and the predicate
 * that enables the submit button.
 */
module Register {
  import opened Wrappers
  import opened Text
  import opened Kdf
  import StrengthRules
  import ClientStrength
  import ClientCrypto

  datatype Form = Form(username: string, masterPassword: string, confirmPassword: string)

  /** The body of `POST /api/auth/register`. */
  datatype Request = Request(username: string, masterPasswordHash: string, salt: string)

  const PasswordsDoNotMatch := "Passwords do not match"
  const TooWeak := "Password is too weak. Please choose a stronger password."

  /** The least score the form accepts. */
  const MinScore := 3

  /** Bytes of randomness in a new salt. */
  const SaltBytes := 32

  /** The score the form shows for its master password. */
  function Score(form: Form): int {
    ClientStrength.Assess(form.masterPassword).score
  }

  /**
   * The salt as hex text and the hash PBKDF2 yields for it: `keySize: 8`
   * counts 32-bit words, so 32 bytes, printed as hex.
   */
  function RegistrationHash(password: string, salt: string, pbkdf2: Pbkdf2Call -> seq<byte>): string {
    HexEncode(pbkdf2(Pbkdf2Call(password, salt, 100000, 8 * 4, Sha256)))
  }

  /**
   * `handleSubmit`: the mismatch check comes first, then the strength check;
   * only then are the salt and hash computed and the request built. The
   * username is not checked here.
   */
  method HandleSubmit(form: Form, randomBytes: seq<byte>, pbkdf2: Pbkdf2Call -> seq<byte>) returns (r: Result<Request>)
    requires |randomBytes| == SaltBytes
    ensures form.masterPassword != form.confirmPassword ==> r == Err(PasswordsDoNotMatch)
    ensures form.masterPassword == form.confirmPassword && Score(form) < MinScore ==> r == Err(TooWeak)
    ensures r.Ok? <==> form.masterPassword == form.confirmPassword && Score(form) >= MinScore
    ensures r.Ok? ==> r.value.username == form.username && r.value.salt == HexEncode(randomBytes)
                      && |r.value.salt| == 64
                      && r.value.masterPasswordHash == RegistrationHash(form.masterPassword, r.value.salt, pbkdf2)
  {
    if form.masterPassword != form.confirmPassword {
      return Err(PasswordsDoNotMatch);
    }
    var strength := ClientStrength.CheckPasswordStrength(form.masterPassword);
    if strength.score < MinScore {
      return Err(TooWeak);
    }
    var salt := HexEncode(randomBytes);
    var hash := RegistrationHash(form.masterPassword, salt, pbkdf2);
    r := Ok(Request(form.username, hash, salt));
  }

  /**
   * The hash sent at registration is the one `hashMasterPasswordForServer`
   * computes at login for the same password and salt, and it is the hex text
   * of the vault key.
   */
  lemma RegistrationMatchesLogin(password: string, salt: string, pbkdf2: Pbkdf2Call -> seq<byte>)
    requires password != [] && salt != []
    ensures RegistrationHash(password, salt, pbkdf2) == ClientCrypto.HashMasterPasswordForServer(password, salt, pbkdf2)
    ensures NodeHexDecode(RegistrationHash(password, salt, pbkdf2)) == ClientCrypto.DeriveKey(password, salt, pbkdf2).value
  {
    ClientCrypto.LoginHashIsVaultKey(password, salt, pbkdf2);
  }

  /** The submit button's `disabled` expression, negated. */
  predicate SubmitEnabled(form: Form, loading: bool) {
    !loading && form.username != [] && form.masterPassword != [] && form.confirmPassword != []
    && form.masterPassword == form.confirmPassword && Score(form) >= MinScore
  }

  /** The strength bar's colour follows the scorer's label: success for Strong, warning for Medium, error below. */
  function StrengthColor(form: Form): (color: string)
    ensures color == "success" <==> ClientStrength.Assess(form.masterPassword).strength == StrengthRules.Label.Strong
    ensures color == "warning" <==> ClientStrength.Assess(form.masterPassword).strength == StrengthRules.Label.Medium
    ensures color == "error" <==> ClientStrength.Assess(form.masterPassword).strength.Ordinal() <= StrengthRules.Label.Weak.Ordinal()
  {
    if Score(form) >= 6 then "success" else if Score(form) >= 4 then "warning" else "error"
  }

  /** An enabled button always leads to a request, never to one of the two errors. */
  lemma EnabledSubmitSends(form: Form)
    requires SubmitEnabled(form, false)
    ensures form.masterPassword == form.confirmPassword && Score(form) >= MinScore
  {
  }

  /** An empty master password never gets through: it scores 0. */
  lemma EmptyPasswordRejected(form: Form)
    requires form.masterPassword == [] && form.confirmPassword == []
    ensures Score(form) < MinScore && !SubmitEnabled(form, false)
  {
    ClientStrength.EmptyPassword();
  }
}
