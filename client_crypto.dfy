/**
 * The browser's key handling (the authentication context): the login hash
 * sent to the server, the vault key, the `iv:ciphertext` field blobs, and the
 * random password generator. CryptoJS's PBKDF2 and AES-CBC are parameters.
 */
module ClientCrypto {
  import opened Wrappers
  import opened Text
  import opened Kdf
  import opened Charset

  /**
   * The derivation both the login hash and the vault key request:
   * `keySize: keyLength / 4` counts 32-bit words, so 8 words are 32 bytes.
   */
  function ClientCall(password: string, salt: string): Pbkdf2Call {
    Pbkdf2Call(password, salt, Iterations, 4 * (KeyBytes / 4), Sha256)
  }

  /** `hashMasterPasswordForServer`: the derived words printed as lower-case hex. */
  function HashMasterPasswordForServer(password: string, salt: string, pbkdf2: Pbkdf2Call -> seq<byte>): (h: string)
    ensures h == HexEncode(pbkdf2(Pbkdf2Call(password, salt, 100000, 32, Sha256)))
  {
    HexEncode(pbkdf2(ClientCall(password, salt)))
  }

  const KeyDerivationError := "Password and salt are required for key derivation"

  /** `deriveKey`: refuses a missing password or salt, otherwise derives the vault key. */
  function DeriveKey(password: string, salt: string, pbkdf2: Pbkdf2Call -> seq<byte>): (r: Result<seq<byte>>)
    ensures r.Err? <==> password == [] || salt == []
    ensures r.Err? ==> r.message == KeyDerivationError
    ensures r.Ok? ==> r.value == pbkdf2(Pbkdf2Call(password, salt, 100000, 32, Sha256))
  {
    if password == [] || salt == [] then Err(KeyDerivationError)
    else Ok(pbkdf2(ClientCall(password, salt)))
  }

  /**
   * There is no domain separation: the hash the server stores is the hex text
   * of the very key that encrypts the vault, and decoding it gives the key back.
   */
  lemma LoginHashIsVaultKey(password: string, salt: string, pbkdf2: Pbkdf2Call -> seq<byte>)
    requires password != [] && salt != []
    ensures DeriveKey(password, salt, pbkdf2).Ok?
    ensures HashMasterPasswordForServer(password, salt, pbkdf2) == HexEncode(DeriveKey(password, salt, pbkdf2).value)
    ensures NodeHexDecode(HashMasterPasswordForServer(password, salt, pbkdf2)) == DeriveKey(password, salt, pbkdf2).value
  {
    HexRoundTrip(pbkdf2(ClientCall(password, salt)));
  }

  // ---------------------------------------------------------------------------
  // Field blobs

  /** The CBC cipher with PKCS#7 padding; its text output is Base64 and so has no ':'. */
  type Encryptor = (seq<byte>, seq<byte>, string) -> string
  /** Decryption, given the key, the IV as hex text, and the ciphertext text. */
  type Decryptor = (seq<byte>, string, string) -> Result<string>

  /** `encrypt`: a fresh 16-byte IV (a parameter here), then `hex(iv) ":" ciphertext`. */
  function Encrypt(data: string, key: seq<byte>, iv: seq<byte>, enc: Encryptor): (blob: string)
    requires |iv| == 16
    ensures |blob| == 33 + |enc(key, iv, data)|
    ensures blob[..32] == HexEncode(iv) && blob[32] == ':' && blob[33..] == enc(key, iv, data)
  {
    HexEncode(iv) + ":" + enc(key, iv, data)
  }

  const InvalidFormat := "Invalid encrypted data format"

  /** `decrypt`: the blob must split on ':' into exactly two parts. */
  function Decrypt(blob: string, key: seq<byte>, dec: Decryptor): (r: Result<string>)
    ensures |Split(blob, ':')| != 2 ==> r == Err(InvalidFormat)
    ensures |Split(blob, ':')| == 2 ==> r == dec(key, Split(blob, ':')[0], Split(blob, ':')[1])
  {
    var parts := Split(blob, ':');
    if |parts| != 2 then Err(InvalidFormat) else dec(key, parts[0], parts[1])
  }

  /** A blob has exactly one ':', right after the 32 hex digits of the IV. */
  lemma {:induction false} EncryptFraming(data: string, key: seq<byte>, iv: seq<byte>, enc: Encryptor)
    requires |iv| == 16 && ':' !in enc(key, iv, data)
    ensures Count(Encrypt(data, key, iv, enc), ':') == 1
    ensures Split(Encrypt(data, key, iv, enc), ':') == [HexEncode(iv), enc(key, iv, data)]
  {
    var h, c := HexEncode(iv), enc(key, iv, data);
    HexHasNoColon(iv);
    CountAppend(h, [':'] + c, ':');
    CountAppend([':'], c, ':');
    CountAbsent(h, ':');
    CountAbsent(c, ':');
    assert h + [':'] + c == h + ([':'] + c);
    SplitAtSep(h, c, ':');
    SplitNoSep(c, ':');
  }

  /** Decrypt only gets past the format check when the blob holds exactly one ':'. */
  lemma DecryptNeedsOneColon(blob: string, key: seq<byte>, dec: Decryptor)
    requires Count(blob, ':') != 1
    ensures Decrypt(blob, key, dec) == Err(InvalidFormat)
  {
    SplitLength(blob, ':');
  }

  /** With a cipher whose decryption inverts its encryption, a field survives the round trip. */
  lemma RoundTrip(data: string, key: seq<byte>, iv: seq<byte>, enc: Encryptor, dec: Decryptor)
    requires |iv| == 16 && ':' !in enc(key, iv, data)
    requires dec(key, HexEncode(iv), enc(key, iv, data)) == Ok(data)
    ensures Decrypt(Encrypt(data, key, iv, enc), key, dec) == Ok(data)
  {
    EncryptFraming(data, key, iv, enc);
  }

  // ---------------------------------------------------------------------------
  // Password generation

  /** One `Math.random()` result, the fraction num / den in [0, 1). */
  datatype Draw = Draw(num: nat, den: nat)

  predicate IsUnitDraw(d: Draw) { d.num < d.den }

  /** `Math.floor(Math.random() * n)`, computed exactly. */
  function Scaled(d: Draw, n: nat): (k: nat)
    requires IsUnitDraw(d)
    ensures n > 0 ==> k < n
  {
    ScaledBelow(d.num, d.den, n);
    (d.num * n) / d.den
  }

  lemma ScaledBelow(num: nat, den: nat, n: nat)
    requires num < den
    ensures n > 0 ==> (num * n) / den < n
  {
    if n > 0 {
      assert num * n <= (den - 1) * n == den * n - n;
      DivBelow(num * n, den, n);
    }
  }

  lemma DivBelow(x: nat, d: nat, n: nat)
    requires 0 < d && x < d * n
    ensures x / d < n
  {
  }

  /**
   * `generatePassword(length, options)`: fails when no class is selected, else
   * appends `length` characters, the i-th picked from the assembled alphabet
   * by the i-th draw.
   */
  method GeneratePassword(length: int, options: Options, random: nat -> Draw) returns (r: Result<string>)
    requires forall i :: IsUnitDraw(random(i))
    ensures r.Err? <==> !AnySelected(options)
    ensures r.Err? ==> r.message == NoClassSelected
    ensures r.Ok? ==> |r.value| == (if length < 0 then 0 else length)
    ensures r.Ok? ==> forall i :: 0 <= i < |r.value| ==>
      r.value[i] == Alphabet(options)[Scaled(random(i), |Alphabet(options)|)]
  {
    var charset := BuildCharset(options);
    EmptyExactlyWhenNoneSelected(options);
    if charset == "" {
      return Err(NoClassSelected);
    }
    var password := "";
    var i := 0;
    while i < length
      invariant 0 <= i && |password| == i
      invariant i <= (if length < 0 then 0 else length)
      invariant forall j :: 0 <= j < i ==> password[j] == charset[Scaled(random(j), |charset|)]
    {
      password := password + [charset[Scaled(random(i), |charset|)]];
      i := i + 1;
    }
    return Ok(password);
  }

  /** Every generated character comes from a selected class. */
  lemma GeneratedFromSelectedClasses(pw: string, options: Options, random: nat -> Draw)
    requires forall i :: IsUnitDraw(random(i))
    requires AnySelected(options)
    requires forall i :: 0 <= i < |pw| ==> pw[i] == Alphabet(options)[Scaled(random(i), |Alphabet(options)|)]
    ensures forall i :: 0 <= i < |pw| ==> pw[i] in Alphabet(options)
    ensures forall i :: 0 <= i < |pw| ==>
      (options.upper && pw[i] in Uppercase) || (options.lower && pw[i] in Lowercase)
      || (options.numbers && pw[i] in Digits) || (options.symbols && pw[i] in Symbols)
  {
    EmptyExactlyWhenNoneSelected(options);
    forall i | 0 <= i < |pw| ensures pw[i] in Alphabet(options) {
    }
    forall i | 0 <= i < |pw|
      ensures (options.upper && pw[i] in Uppercase) || (options.lower && pw[i] in Lowercase)
           || (options.numbers && pw[i] in Digits) || (options.symbols && pw[i] in Symbols)
    {
      AlphabetMembership(options, pw[i]);
    }
  }
}
