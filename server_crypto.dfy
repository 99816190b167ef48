/**
 * The server's crypto utilities: salt generation, the PBKDF2 key, the
 * `iv:tag:ciphertext` AES-GCM blobs, and the random password generator.
 * Node's `pbkdf2`, the GCM cipher and the random sources are parameters.
 */
module ServerCrypto {
  import opened Wrappers
  import opened Text
  import opened Kdf
  import opened Charset
  import ClientCrypto

  /** `generateSalt(length)`: `length` random bytes (a parameter here) as hex. */
  function GenerateSalt(randomBytes: seq<byte>): (salt: string)
    ensures |salt| == 2 * |randomBytes|
    ensures forall i :: 0 <= i < |salt| ==> IsHexChar(salt[i])
    ensures NodeHexDecode(salt) == randomBytes
  {
    HexRoundTrip(randomBytes);
    HexEncode(randomBytes)
  }

  /** The default salt is 32 bytes, 64 hex digits. */
  const DefaultSaltBytes := 32

  /** `deriveKey`: PBKDF2-SHA256, 100000 iterations, 32-byte key. */
  function DeriveKey(masterPassword: string, salt: string, pbkdf2: Pbkdf2Call -> seq<byte>): (key: seq<byte>)
    ensures key == pbkdf2(ClientCrypto.ClientCall(masterPassword, salt))
  {
    pbkdf2(Pbkdf2Call(masterPassword, salt, Iterations, KeyBytes, Sha256))
  }

  /**
   * The hash the browser sends at registration and the server stores is the
   * hex text of the key the server derives from the master password, so the
   * stored hash alone yields the vault key.
   */
  lemma StoredHashYieldsVaultKey(masterPassword: string, salt: string, pbkdf2: Pbkdf2Call -> seq<byte>)
    ensures NodeHexDecode(ClientCrypto.HashMasterPasswordForServer(masterPassword, salt, pbkdf2))
         == DeriveKey(masterPassword, salt, pbkdf2)
  {
    HexRoundTrip(pbkdf2(ClientCrypto.ClientCall(masterPassword, salt)));
  }

  // ---------------------------------------------------------------------------
  // Field blobs

  /** The additional authenticated data both directions set. */
  const Aad := "password-manager"
  const IvBytes := 16
  const TagBytes := 16

  /** The GCM seal: key, AAD and plaintext give the tag and the ciphertext bytes. */
  type Sealer = (seq<byte>, string, string) -> (seq<byte>, seq<byte>)
  /** The GCM open: key, AAD, tag and ciphertext give the plaintext, or fail. */
  type Opener = (seq<byte>, string, seq<byte>, seq<byte>) -> Result<string>

  /**
   * `encrypt`: `hex(iv) ":" hex(tag) ":" hex(ciphertext)`. The IV is random
   * (a parameter here) but is not handed to the cipher.
   */
  function Encrypt(data: string, key: seq<byte>, iv: seq<byte>, seal: Sealer): (blob: string)
    ensures blob == HexEncode(iv) + ":" + HexEncode(seal(key, Aad, data).0) + ":" + HexEncode(seal(key, Aad, data).1)
  {
    var (tag, ct) := seal(key, Aad, data);
    HexEncode(iv) + ":" + HexEncode(tag) + ":" + HexEncode(ct)
  }

  const InvalidFormat := "Invalid encrypted data format"

  /** `decrypt`: exactly three ':'-parts; the tag and ciphertext are hex-decoded and opened. */
  function Decrypt(blob: string, key: seq<byte>, open: Opener): (r: Result<string>)
    ensures |Split(blob, ':')| != 3 ==> r == Err(InvalidFormat)
    ensures |Split(blob, ':')| == 3 ==>
      r == open(key, Aad, NodeHexDecode(Split(blob, ':')[1]), NodeHexDecode(Split(blob, ':')[2]))
  {
    var parts := Split(blob, ':');
    if |parts| != 3 then Err(InvalidFormat)
    else open(key, Aad, NodeHexDecode(parts[1]), NodeHexDecode(parts[2]))
  }

  /** A blob is three hex fields; with a 16-byte IV and tag the first two are 32 digits each. */
  lemma {:induction false} EncryptFraming(data: string, key: seq<byte>, iv: seq<byte>, seal: Sealer)
    requires |iv| == IvBytes && |seal(key, Aad, data).0| == TagBytes
    ensures Split(Encrypt(data, key, iv, seal), ':')
         == [HexEncode(iv), HexEncode(seal(key, Aad, data).0), HexEncode(seal(key, Aad, data).1)]
    ensures |HexEncode(iv)| == 32 && |HexEncode(seal(key, Aad, data).0)| == 32
    ensures Count(Encrypt(data, key, iv, seal), ':') == 2
  {
    var (tag, ct) := seal(key, Aad, data);
    var a, b, c := HexEncode(iv), HexEncode(tag), HexEncode(ct);
    HexHasNoColon(iv);
    HexHasNoColon(tag);
    HexHasNoColon(ct);
    assert a + ":" + b + ":" + c == a + [':'] + (b + [':'] + c);
    SplitAtSep(a, b + [':'] + c, ':');
    SplitAtSep(b, c, ':');
    SplitNoSep(c, ':');
    SplitLength(a + ":" + b + ":" + c, ':');
  }

  /** With an AEAD whose open inverts its seal, `decrypt(encrypt(d, k), k) == d`. */
  lemma RoundTrip(data: string, key: seq<byte>, iv: seq<byte>, seal: Sealer, open: Opener)
    requires |iv| == IvBytes && |seal(key, Aad, data).0| == TagBytes
    requires open(key, Aad, seal(key, Aad, data).0, seal(key, Aad, data).1) == Ok(data)
    ensures Decrypt(Encrypt(data, key, iv, seal), key, open) == Ok(data)
  {
    EncryptFraming(data, key, iv, seal);
    HexRoundTrip(seal(key, Aad, data).0);
    HexRoundTrip(seal(key, Aad, data).1);
  }

  /** The first field is parsed but never used: replacing it does not change the result. */
  lemma DecryptIgnoresIvField(iv1: string, iv2: string, rest: string, key: seq<byte>, open: Opener)
    requires ':' !in iv1 && ':' !in iv2
    ensures Decrypt(iv1 + ":" + rest, key, open) == Decrypt(iv2 + ":" + rest, key, open)
  {
    SplitAtSep(iv1, rest, ':');
    SplitAtSep(iv2, rest, ':');
  }

  // ---------------------------------------------------------------------------
  // Password generation

  /**
   * `generatePassword(length, options)`: fails when no class is selected,
   * else appends `length` characters, the i-th at index
   * `randomInt(i, |charset|)` of the assembled alphabet.
   */
  method GeneratePassword(length: int, options: Options, randomInt: (nat, nat) -> nat) returns (r: Result<string>)
    requires forall i, n :: 0 < n ==> randomInt(i, n) < n
    ensures r.Err? <==> !AnySelected(options)
    ensures r.Err? ==> r.message == NoClassSelected
    ensures r.Ok? ==> |r.value| == (if length < 0 then 0 else length)
    ensures r.Ok? ==> forall i :: 0 <= i < |r.value| ==>
      r.value[i] == Alphabet(options)[randomInt(i, |Alphabet(options)|)]
  {
    var charset := BuildCharset(options);
    EmptyExactlyWhenNoneSelected(options);
    if charset == "" {
      return Err(NoClassSelected);
    }
    var password := "";
    var i := 0;
    while i < length
      invariant 0 <= i && |password| == i
      invariant i <= (if length < 0 then 0 else length)
      invariant forall j :: 0 <= j < i ==> password[j] == charset[randomInt(j, |charset|)]
    {
      password := password + [charset[randomInt(i, |charset|)]];
      i := i + 1;
    }
    return Ok(password);
  }

  /** Every generated character comes from a selected class. */
  lemma GeneratedFromSelectedClasses(pw: string, options: Options, randomInt: (nat, nat) -> nat)
    requires forall i, n :: 0 < n ==> randomInt(i, n) < n
    requires AnySelected(options)
    requires forall i :: 0 <= i < |pw| ==> pw[i] == Alphabet(options)[randomInt(i, |Alphabet(options)|)]
    ensures forall i :: 0 <= i < |pw| ==>
      (options.upper && pw[i] in Uppercase) || (options.lower && pw[i] in Lowercase)
      || (options.numbers && pw[i] in Digits) || (options.symbols && pw[i] in Symbols)
  {
    EmptyExactlyWhenNoneSelected(options);
    forall i | 0 <= i < |pw|
      ensures (options.upper && pw[i] in Uppercase) || (options.lower && pw[i] in Lowercase)
           || (options.numbers && pw[i] in Digits) || (options.symbols && pw[i] in Symbols)
    {
      assert pw[i] in Alphabet(options);
      AlphabetMembership(options, pw[i]);
    }
  }
}
