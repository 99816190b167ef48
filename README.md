# VaultGuard core, modelled in Dafny

VaultGuard is a password manager that describes its login hash as
zero-knowledge (`client/src/contexts/AuthContext.js:56`). The browser
derives two things from the master password and a per-account salt with
PBKDF2: the authentication hash it sends to the server at login, and the
vault key it encrypts the password and notes fields with. The master
password itself still reaches the server on every vault request: in the
query of the listing (`client/src/components/Dashboard.js:107-111`) and in
the body of a save (`client/src/components/Dashboard.js:224-227`), and the
server derives the same key from it (`server/routes/passwords.js:33`).
This project models that core and the code around it:

- the two strength scorers, the client's (`checkPasswordStrength`) and the
  server's (`checkPasswordStrength` in `server/utils/crypto.js`), and how
  they compare;
- password generation on both sides, from the same four character classes;
- the client's key derivation and AES-CBC field encryption, and the
  server's PBKDF2 hashing, AES-GCM encryption and `iv:tag:data` format;
- the authentication routes (register, login, verify, salt lookup) over
  the users table, and the password routes (list, create, update, delete,
  categories) over the passwords table, each a class whose methods update
  the table;
- the session kept by the client's authentication context;
- the dashboard's search, filters and sort, the statistics cards, the
  password card, the list view, the password dialog, the generator dialog
  and the registration form;
- the schema migration and the table printer of the SQLite browser.

PBKDF2, SHA-256, AES and the random sources are not computed. They are
function parameters. Each comes with the property the code relies on, such
as decryption undoing encryption or a random index lying below its bound.
A JavaScript value that may be missing is an `Option`, or the empty string
where the code treats a missing field and an empty one alike. A user id in
a JSON body is a number, and the number 0 is as falsy as a missing one, so
there the model writes 0 for a missing id (real ids start at 1). A user id
in a query string is text, where `'0'` is truthy, so the listing, delete
and categories routes take it as an `Option`. Integers are unbounded; no
computation here is near a 64-bit float's exact range.

The code derives the login hash and the vault key with identical PBKDF2
calls: same password, salt, iterations, length and digest
(`client/src/contexts/AuthContext.js:57-83`,
`client/src/components/Register.js:63-70`).
`ClientCrypto.LoginHashIsVaultKey` proves that the login hash is the hex
text of the vault key, and `ServerCrypto.StoredHashYieldsVaultKey` that the
stored hash decodes to the key the server derives.

## Model

| member | source | states |
|---|---|---|
| Text.Split | client/src/components/PasswordCard.js:97 | Splitting never yields an empty list and no piece contains the separator |
| Text.SplitLength | client/src/components/PasswordCard.js:97 | Splitting gives one more piece than there are separators, empty pieces included |
| Text.Trim | client/src/components/PasswordDialog.js:387-388 | The result is a contiguous part of the string that neither starts nor ends with whitespace, and everything cut off before and after it is whitespace |
| Text.TrimEmptyIffBlank | client/src/components/PasswordDialog.js:387 | Trimming leaves nothing exactly when the string is all whitespace |
| Text.PadEndContents | server/database/sqlite-browser.js:51 | Padding keeps the text in front and adds only spaces |
| Text.HexEncode | server/utils/crypto.js:65 | Hex encoding doubles the length and uses only lowercase hex digits |
| Text.HexRoundTrip | server/utils/crypto.js:77-78 | Decoding with `Buffer.from(s, 'hex')` undoes the hex encoding of any bytes |
| Text.HexHasNoColon | server/utils/crypto.js:65-72 | Hex text never contains the ':' that separates the parts of a ciphertext |
| Text.LexLessTransitive | server/routes/passwords.js:243 | Code-point string order is transitive |
| Text.LexLessTotal | server/routes/passwords.js:243 | Two different strings are ordered one way or the other |
| StrengthRules.LengthPoints | client/src/contexts/AuthContext.js:153-163 | Length earns 0, 1, 2 or 3 points exactly for lengths below 8, 8 to 11, 12 to 15, and 16 or more |
| StrengthRules.FailedExactly | client/src/contexts/AuthContext.js:162-192 | A criterion is listed among the failures exactly when the password fails its test |
| StrengthRules.FailedInTestOrder | client/src/contexts/AuthContext.js:162-192 | Failures are listed in the fixed order length, lowercase, uppercase, numbers, special, repeated, common |
| StrengthRules.LabelMonotone | client/src/contexts/AuthContext.js:195-199 | The label with thresholds 6, 4 and 2 never drops as the score rises |
| StrengthRules.MessageInjective | client/src/contexts/AuthContext.js:162-191 | The seven advisories are pairwise different, so a message identifies its criterion |
| StrengthRules.NonEmptyHasClass | client/src/contexts/AuthContext.js:166-176 | A non-empty password earns at least one character-class point |
| ClientStrength.AwardPoints | client/src/contexts/AuthContext.js:149-181 | The stepwise length and class tests and the bonus give the base score and the first five advisories, in order |
| ClientStrength.Tally | client/src/contexts/AuthContext.js:183-192 | After the two penalties, each floored at 0 as applied, the score is the penalised score and the feedback lists exactly the failed criteria in test order |
| ClientStrength.CheckPasswordStrength | client/src/contexts/AuthContext.js:140-213 | The browser scorer returns the reference assessment: empty input special-cased, label from the score, acknowledgement or fallback when nothing failed |
| ClientStrength.EmptyPassword | client/src/contexts/AuthContext.js:141-147 | The empty password scores 0, is 'Very Weak' and gets only 'Enter a password' |
| ClientStrength.ScoreBounds | client/src/contexts/AuthContext.js:149-192 | Every score lies in 0..8 and never exceeds the points before penalties |
| ClientStrength.PenaltiesCompose | client/src/contexts/AuthContext.js:184-192 | Both penalties together equal one subtraction of 3 floored at 0 |
| ClientStrength.LengthAdvisory | client/src/contexts/AuthContext.js:153-163 | A non-empty password gets the length advisory exactly when it is shorter than 8 |
| ClientStrength.RepeatAdvisory | client/src/contexts/AuthContext.js:184-187 | The repeated-character advisory appears exactly when some character other than a line terminator occurs three times in a row |
| ClientStrength.CommonAdvisory | client/src/contexts/AuthContext.js:189-192 | The common-pattern advisory appears exactly when the lower-cased password contains one of the seven denylisted words |
| ClientStrength.FeedbackNonEmpty | client/src/contexts/AuthContext.js:202-211 | The feedback is never empty |
| ClientStrength.NoFailureMeansPraise | client/src/contexts/AuthContext.js:202-206 | When no criterion fails the score is at least 5 and the feedback is exactly 'Excellent password!' or 'Good password!' |
| ClientStrength.NeverTooWeakFallback | client/src/contexts/AuthContext.js:211 | The 'Password is too weak' fallback is never returned |
| ClientStrength.FeedbackOrdered | client/src/contexts/AuthContext.js:162-192 | With some failure, the feedback is the failed criteria's advisories in strictly increasing test order |
| ClientStrength.LabelMatchesScore | client/src/contexts/AuthContext.js:194-210 | The returned label is the threshold label of the returned score |
| ServerStrength.AwardPoints | server/utils/crypto.js:124-145 | The length and class tests give length points plus class points and the first five advisories in order |
| ServerStrength.CheckPasswordStrength | server/utils/crypto.js:123-169 | The server scorer returns the reference assessment: unfloored penalties, label from the raw score, only the reported score floored, 'Good password!' when nothing failed |
| ServerStrength.ScoreBounds | server/utils/crypto.js:128-165 | Without a bonus the raw score lies in -3..7 and the reported score is its floor at 0, in 0..7 |
| ServerStrength.LabelMatchesReportedScore | server/utils/crypto.js:158-165 | The label taken from the raw score equals the label of the floored score; a raw score below 2 is 'Very Weak' |
| ServerStrength.EmptyPassword | server/utils/crypto.js:123-168 | The empty password is not special-cased: score 0, 'Very Weak', and the five length and class advisories |
| ServerStrength.GoodExactlyWhenNothingFailed | server/utils/crypto.js:164-168 | The feedback is exactly ['Good password!'] when and only when no criterion failed, otherwise it is the advisories |
| ServerStrength.FeedbackOrdered | server/utils/crypto.js:127-156 | Failures are listed exactly, in the fixed test order |
| ScorerComparison.DenylistSubset | server/utils/crypto.js:153 | Whatever the server's common-pattern expression matches, the browser's matches too |
| ScorerComparison.DenylistDifference | client/src/contexts/AuthContext.js:189 | The browser's pattern matches exactly when the server's does or the input contains 'letmein'; 'qwerty' adds nothing because it contains 'qwe' |
| ScorerComparison.ScorersAgree | server/utils/crypto.js:123-169 | Without the bonus and 'letmein', both scorers give a non-empty password the same score, label and failures |
| Charset.BuildCharset | client/src/contexts/AuthContext.js:122-126 | The stepwise charset is the selected alphabets concatenated in the order upper, lower, digits, symbols |
| Charset.EmptyExactlyWhenNoneSelected | client/src/contexts/AuthContext.js:128-130 | The charset is empty exactly when no class is selected, and its length is the sum of the selected classes' sizes |
| Charset.AlphabetMembership | server/utils/crypto.js:102-106 | A character is in the charset exactly when it belongs to a selected class |
| ClientCrypto.HashMasterPasswordForServer | client/src/contexts/AuthContext.js:57-67 | The login hash is the hex text of PBKDF2-SHA256 over the password and salt with 100000 iterations and 32 bytes |
| ClientCrypto.DeriveKey | client/src/contexts/AuthContext.js:70-83 | Key derivation fails with its message exactly when the password or the salt is empty, else it is that same PBKDF2 call |
| ClientCrypto.LoginHashIsVaultKey | client/src/contexts/AuthContext.js:57-83 | The login hash is the hex encoding of the vault key, and decoding it gives the key back |
| ClientCrypto.Encrypt | client/src/contexts/AuthContext.js:85-94 | A blob is the 32 hex digits of the IV, one ':', then the ciphertext |
| ClientCrypto.Decrypt | client/src/contexts/AuthContext.js:96-112 | A blob that does not split on ':' into exactly two parts is refused with 'Invalid encrypted data format' |
| ClientCrypto.EncryptFraming | client/src/contexts/AuthContext.js:93 | A blob holds exactly one ':' and splits into the IV's hex and the ciphertext |
| ClientCrypto.DecryptNeedsOneColon | client/src/contexts/AuthContext.js:97-100 | Any text without exactly one ':' is refused |
| ClientCrypto.RoundTrip | client/src/contexts/AuthContext.js:85-112 | With a cipher whose decryption inverts its encryption, decrypt(encrypt(d, k), k) gives d back |
| ClientCrypto.Scaled | client/src/contexts/AuthContext.js:134 | Math.floor(Math.random() * n) is below n for n > 0 |
| ClientCrypto.GeneratePassword | client/src/contexts/AuthContext.js:114-138 | The generator fails exactly when no class is selected; otherwise it returns `length` characters, the i-th picked from the charset by the i-th draw |
| ClientCrypto.GeneratedFromSelectedClasses | client/src/contexts/AuthContext.js:122-135 | Every generated character belongs to a selected class |
| ServerCrypto.GenerateSalt | server/utils/crypto.js:17-19 | A salt of n random bytes is 2n hex digits that decode back to those bytes |
| ServerCrypto.DeriveKey | server/utils/crypto.js:24-34 | The server key is the same PBKDF2 call (SHA-256, 100000 iterations, 32 bytes) as the browser's |
| ServerCrypto.StoredHashYieldsVaultKey | server/utils/crypto.js:24-34 | Hex-decoding the stored login hash gives the key derived from the master password |
| ServerCrypto.Encrypt | server/utils/crypto.js:54-66 | A blob is hex(iv) ':' hex(tag) ':' hex(ciphertext), sealed with the fixed AAD 'password-manager' |
| ServerCrypto.Decrypt | server/utils/crypto.js:71-89 | A blob without exactly three ':'-parts is refused; otherwise the tag and ciphertext are hex-decoded and opened with the same AAD |
| ServerCrypto.EncryptFraming | server/utils/crypto.js:10-12 | A blob splits into exactly three fields, with 32 hex digits each for a 16-byte IV and tag, and holds exactly two ':' |
| ServerCrypto.RoundTrip | server/utils/crypto.js:54-89 | With an AEAD whose open inverts its seal, decrypt(encrypt(d, k), k) gives d back |
| ServerCrypto.DecryptIgnoresIvField | server/utils/crypto.js:77-81 | The IV field is parsed but unused: replacing it never changes the result |
| ServerCrypto.GeneratePassword | server/utils/crypto.js:94-118 | The generator fails exactly when no class is selected; otherwise it returns `length` characters, each at an index below the charset's length |
| ServerCrypto.GeneratedFromSelectedClasses | server/utils/crypto.js:102-115 | Every generated character belongs to a selected class |
| AuthRoutes.UserTable.constructor | server/routes/auth.js:16-65 | The users table starts empty, with the id counter at 1 |
| AuthRoutes.UserTable.Register | server/routes/auth.js:16-65 | A missing field gives 400 and an existing username 409, both leaving the table unchanged; otherwise exactly one row (username, hash, salt) is inserted under the next id, 201 returns that id, and the new user can log in and look up the salt |
| AuthRoutes.UserTable.Login | server/routes/auth.js:72-123 | 401 'Invalid credentials' exactly when the user is unknown or the hash differs; 200 exactly on an exact hash match, returning id, username and salt but never the hash |
| AuthRoutes.UserTable.Verify | server/routes/auth.js:130-171 | An unknown user gets 'Invalid credentials', a wrong hash 'Invalid master password', and 200 exactly on a match |
| AuthRoutes.UserTable.SaltLookup | server/routes/auth.js:177-207 | An unknown username gets 404 'User not found', a known one its stored salt |
| AuthRoutes.UserTable.LoginHidesWhatVerifyReveals | server/routes/auth.js:94-102 | Login gives the same answer for an unknown user and a wrong hash, while verify gives different ones |
| AuthRoutes.UserTable.SaltRevealsRegistration | server/routes/auth.js:196-200 | The salt endpoint succeeds exactly for registered usernames |
| Session.AuthState.constructor | client/src/contexts/AuthContext.js:14-32 | A saved user and salt are restored only together; the master password never is, and the session starts unauthenticated |
| Session.AuthState.Login | client/src/contexts/AuthContext.js:34-43 | Login replaces user, salt and master password and marks the session authenticated |
| Session.AuthState.Logout | client/src/contexts/AuthContext.js:45-54 | Logout clears all four fields |
| Session.AuthState.NeedsMasterPassword | client/src/components/Dashboard.js:83-84 | A user and salt without a master password means the vault key cannot be derived |
| Session.RestoredSessionIsLocked | client/src/contexts/AuthContext.js:25-31 | A restored session asks for the master password again and cannot unlock the vault |
| PasswordRoutes.InsertByUpdated | server/routes/passwords.js:25 | Inserting a row into a newest-first list keeps it newest first and adds exactly that row |
| PasswordRoutes.SortNewestFirst | server/routes/passwords.js:25 | ORDER BY updated_at DESC: the result is newest first and a permutation of the rows |
| PasswordRoutes.RowsOf | server/routes/passwords.js:25 | WHERE user_id = ?: exactly the caller's rows are kept |
| PasswordRoutes.ProjectAllSound | server/routes/passwords.js:38-55 | Every listed entry is the decryption of one of the rows |
| PasswordRoutes.ProjectAllComplete | server/routes/passwords.js:38-55 | Every row that decrypts is listed |
| PasswordRoutes.ProjectAllNewestFirst | server/routes/passwords.js:38-55 | Dropping the rows that fail to decrypt keeps the newest-first order |
| PasswordRoutes.InsertCategory | server/routes/passwords.js:243 | Inserting a category into a strictly ascending list keeps it strictly ascending and adds exactly that value |
| PasswordRoutes.SortedDistinct | server/routes/passwords.js:243 | SELECT DISTINCT ... ORDER BY: the result is strictly ascending and holds exactly the input's values |
| PasswordRoutes.Without | server/routes/passwords.js:206-208 | DELETE ... WHERE id = ? AND user_id = ?: the rows kept are exactly those without that id and user |
| PasswordRoutes.WithoutRemovesOwned | server/routes/passwords.js:215-217 | Nothing is removed exactly when no row has that id and belongs to that user |
| PasswordRoutes.WithoutKeepsOrder | server/routes/passwords.js:206-208 | The remaining rows keep their table order |
| PasswordRoutes.EntryTable.constructor | server/routes/passwords.js:74-119 | The table starts empty with the id counter at 1 |
| PasswordRoutes.EntryTable.List | server/routes/passwords.js:11-68 | 400 exactly when the query has no user id, master password or salt (a user id of `'0'` passes); otherwise 200 with that user's rows, newest first, decrypted under the derived key, failures dropped |
| PasswordRoutes.EntryTable.ListedOnlyOwnRows | server/routes/passwords.js:24-26 | Every listed entry is the decryption of one of the caller's own rows |
| PasswordRoutes.EntryTable.ListedEveryReadableRow | server/routes/passwords.js:38-55 | Every row of the caller that decrypts is listed; only undecryptable rows are dropped |
| PasswordRoutes.EntryTable.ListedNewestFirst | server/routes/passwords.js:25 | The listing is ordered by last update, newest first |
| PasswordRoutes.EntryTable.MissingNotesListedEmpty | server/routes/passwords.js:45 | A row stored without notes is listed with notes '' |
| PasswordRoutes.EntryTable.Create | server/routes/passwords.js:74-119 | 400 and no change unless user id, master password, salt, title and password are given; otherwise exactly one row is appended under the next id with username '', url '', category 'General' and null notes as defaults |
| PasswordRoutes.EntryTable.Update | server/routes/passwords.js:125-189 | 400 on a missing field and 404 unless a row has that id and user, both with no change; otherwise only the rows with that id and user are rewritten and stamped, and every other row is untouched |
| PasswordRoutes.EntryTable.Delete | server/routes/passwords.js:195-226 | 400 exactly when the query has no user id (`'0'` passes), with no change; otherwise only that user's row with that id is removed, and 404 exactly when nothing was removed |
| PasswordRoutes.EntryTable.Categories | server/routes/passwords.js:232-259 | 400 exactly when the query has no user id (`'0'` passes); otherwise 200 with exactly that user's categories, each once, in strictly ascending order |
| PasswordRoutes.EntryTable.QueryForUserZero | server/routes/passwords.js:15-25 | A user id of `'0'` gets past the guards but matches no row: the listing and the categories are empty and a delete answers 404 |
| Dashboard.Filter | client/src/components/Dashboard.js:342-353 | An entry is kept exactly when it matches the search, the category and the favourites switch, and never more entries than given |
| Dashboard.FilterKeepsAll | client/src/components/Dashboard.js:342-353 | When every entry matches, the filter returns the list unchanged |
| Dashboard.FilterIsSubsequence | client/src/components/Dashboard.js:342-353 | The filtered list is the original with some entries removed, in the original order |
| Dashboard.EmptyTermMatches | client/src/components/Dashboard.js:344-346 | The empty search term matches every entry |
| Dashboard.InactiveFiltersKeepAll | client/src/components/SearchAndFilter.js:62 | When the filter-active indicator is off, every entry matches and the list is shown whole |
| Dashboard.ClearedShowsAll | client/src/components/Dashboard.js:318-322 | After clearing, no filter is active and the filter keeps every entry |
| Dashboard.Insert | client/src/components/Dashboard.js:354-371 | One step of the stable sort adds exactly the new entry |
| Dashboard.Sort | client/src/components/Dashboard.js:354-371 | The sort is a permutation of its input |
| Dashboard.NeutralSortKeepsOrder | client/src/components/Dashboard.js:368-369 | A callback that answers 0 for every pair leaves the order unchanged |
| Dashboard.InsertAtEnd | client/src/components/Dashboard.js:354-371 | An entry that does not precede the last one goes at the end |
| Dashboard.UnrecognisedKeyKeepsOrder | client/src/components/Dashboard.js:368-369 | An unrecognised sort key keeps the filtered order |
| Dashboard.UnratedStrengthSortKeepsOrder | client/src/components/Dashboard.js:366-367 | The strength sort never reorders entries without a strength, since the difference is NaN |
| Dashboard.InsertStrongestFirst | client/src/components/Dashboard.js:366-367 | Inserting a rated entry into a strongest-first rated list keeps it strongest first |
| Dashboard.AppendWeakest | client/src/components/Dashboard.js:366-367 | Appending an entry no stronger than any listed keeps the list strongest first |
| Dashboard.StrengthSortStrongestFirst | client/src/components/Dashboard.js:366-367 | When every entry is rated, sorting by strength lists strengths in non-increasing order and permutes the input |
| Dashboard.ToggleFavorite | client/src/components/Dashboard.js:299-304 | Only entries with the given id have `favorite` flipped; length, order and every other entry and field are kept |
| Dashboard.ToggleFavoriteTwice | client/src/components/Dashboard.js:299-304 | Toggling the same entry twice restores the list |
| Dashboard.ToggleVisibility | client/src/components/Dashboard.js:306-311 | Only the given id's reveal flag flips, an absent flag reading as hidden; every other flag is kept |
| Dashboard.View.constructor | client/src/components/Dashboard.js:44-62 | The dashboard starts with nothing loaded or revealed, no filter, sorted by last update |
| Dashboard.View.HandleToggleFavorite | client/src/components/Dashboard.js:299-304 | The list becomes the toggled list; reveal flags, filters and sort key are unchanged |
| Dashboard.View.HandleTogglePasswordVisibility | client/src/components/Dashboard.js:306-311 | The reveal flags become the toggled flags; list, filters and sort key are unchanged |
| Dashboard.View.HandleClearFilters | client/src/components/Dashboard.js:318-322 | The filters are reset so that none is active and every loaded entry passes; nothing else changes |
| Dashboard.HandleSavePassword | client/src/components/Dashboard.js:191-244 | A request is produced exactly when user id, title, password, master password and salt are all present; failing guards report their own errors in that order; PUT exactly when editing; the payload carries the form with password and notes encrypted under the vault key |
| Dashboard.RestoredSessionCannotSave | client/src/components/Dashboard.js:207-211 | Without a master password no save is sent, whatever the form holds |
| Dashboard.SentPasswordDecrypts | client/src/components/Dashboard.js:221-230 | The password sent decrypts, under the key of the same session, to the password typed in the form |
| Dashboard.VisitUrl | client/src/components/Dashboard.js:313-316 | The opened address starts with 'http': the url itself when it already does, else 'https://' prefixed |
| Dashboard.VisitUrlIdempotent | client/src/components/Dashboard.js:313-316 | Opening an already-opened address leaves it unchanged |
| Dashboard.HandleReEnterMasterPassword | client/src/components/Dashboard.js:331-339 | The input is accepted exactly when it is not blank after trimming; it is then stored untrimmed, the session is authenticated and can unlock the vault; a rejected input changes nothing |
| PasswordDialog.HandleFormChange | client/src/components/PasswordDialog.js:45-60 | The named field takes the new value and no field outside it changes; a password change also sets score, label and feedback to the scorer's verdict on the new value |
| PasswordDialog.ScoredPreserved | client/src/components/PasswordDialog.js:45-60 | A form whose strength fields were computed from its password keeps that property under every change |
| PasswordDialog.ChangeDeterminesForm | client/src/components/PasswordDialog.js:45-60 | The contract of a change determines the new form completely |
| PasswordDialog.SaveButtonMatchesSubmit | client/src/components/PasswordDialog.js:426 | The save button is enabled exactly when the submit guard calls onSave: title and password both non-empty |
| PasswordDialog.DeleteTag | client/src/components/PasswordDialog.js:367-369 | Deleting chip i removes exactly position i and keeps the other tags in order |
| PasswordDialog.AddTag | client/src/components/PasswordDialog.js:380-389 | The list changes exactly when fewer than five tags exist and the answer is non-blank after trimming; the trimmed answer is then appended |
| PasswordDialog.AddTagExtends | client/src/components/PasswordDialog.js:385-389 | Adding keeps the existing tags in place and appends only non-empty trimmed tags |
| PasswordDialog.TagsStayBounded | client/src/components/PasswordDialog.js:380-389 | Any sequence of prompt answers keeps a list of at most five tags at most five long and only appends non-empty trimmed tags |
| PasswordDialog.TrimIdempotent | client/src/components/PasswordDialog.js:387-388 | Trimming a trimmed tag changes nothing |
| PasswordGenerator.Flip | client/src/components/PasswordGenerator.js:60-61 | A toggle flips exactly the named switch and no other |
| PasswordGenerator.FlipTwice | client/src/components/PasswordGenerator.js:60-61 | Flipping the same switch twice restores the options |
| PasswordGenerator.RefusedOnlyForLastClass | client/src/components/PasswordGenerator.js:63-66 | From a state with a switch on, a toggle would leave none on exactly when it targets the only switch still on |
| PasswordGenerator.PresetLength | client/src/components/PasswordGenerator.js:222-254 | Every preset length lies within the slider's 8..64 |
| PasswordGenerator.PresetOptions | client/src/components/PasswordGenerator.js:223-260 | Every preset leaves at least one class on |
| PasswordGenerator.StrengthColorFollowsLabel | client/src/components/PasswordGenerator.js:73-78 | For a non-empty password the chip is 'success' exactly for the scorer's Strong, 'warning' for Medium and 'error' below |
| PasswordGenerator.StrengthColor | client/src/components/PasswordGenerator.js:71-78 | With no password the chip colour is 'default' |
| PasswordGenerator.Generator.constructor | client/src/components/PasswordGenerator.js:29-38 | The dialog starts with no password, length 16 and all four classes on |
| PasswordGenerator.Generator.HandleOptionChange | client/src/components/PasswordGenerator.js:60-69 | A toggle that leaves some switch on is applied; one that would leave none on is refused and nothing changes; so one class always stays on |
| PasswordGenerator.Generator.SetLength | client/src/components/PasswordGenerator.js:154-158 | The slider sets the length, which stays within 8..64 |
| PasswordGenerator.Generator.GenerateNewPassword | client/src/components/PasswordGenerator.js:40-48 | The new password is exactly as long as the slider shows and drawn from the selected classes; it never fails because a class is always on |
| PasswordGenerator.Generator.ApplyPresetAsWritten | client/src/components/PasswordGenerator.js:218-264 | As written: the slider and switches take the preset, but the password has the length and classes from before the click |
| PasswordGenerator.Generator.ApplyPreset | client/src/components/PasswordGenerator.js:218-264 | As intended: the password has the preset's length and classes |
| PasswordGenerator.StalePresetExample | client/src/components/PasswordGenerator.js:218-233 | From the initial state, "Standard (12 chars)" as written shows a 16-character password under a slider reading 12 |
| PasswordGenerator.CorrectedPresetExample | client/src/components/PasswordGenerator.js:218-233 | The corrected preset gives a 12-character password under a slider reading 12 |
| Register.HandleSubmit | client/src/components/Register.js:42-76 | The mismatch check comes first, then the score-below-3 check, each with its message and no request; otherwise the request carries the username, a 64-hex-digit salt from 32 random bytes, and the PBKDF2 hash of the password under that salt |
| Register.RegistrationMatchesLogin | client/src/components/Register.js:63-70 | The registration hash equals the login hash for the same password and salt and decodes to the vault key |
| Register.StrengthColor | client/src/components/Register.js:95-99 | The strength bar is 'success' exactly for the scorer's Strong, 'warning' for Medium and 'error' below |
| Register.EnabledSubmitSends | client/src/components/Register.js:201-208 | An enabled submit button always leads to a request, never to one of the two errors |
| Register.EmptyPasswordRejected | client/src/components/Register.js:55-59 | An empty master password scores 0, so it is rejected and the button stays disabled |
| PasswordCard.SameBoundaries | client/src/components/PasswordCard.js:67-83 | The label, the colour in either theme and the icon each change exactly where the bucket (4 and up, 2 to 3, below 2) changes |
| PasswordCard.LabelAgainstScorer | client/src/components/PasswordCard.js:79-83 | The card says "Strong" for the scorer's Medium or Strong, "Medium" for its Weak, and "Weak" for its Very Weak |
| PasswordCard.CardOverstatesMedium | client/src/components/PasswordCard.js:80 | A score of 4 is "Strong" on the card but "Medium" for the scorer |
| PasswordCard.WordStarts | client/src/components/PasswordCard.js:95-102 | Word starts are characters of the title other than spaces |
| PasswordCard.Initials | client/src/components/PasswordCard.js:95-102 | The initials are at most two characters long |
| PasswordCard.FirstCharsAreWordStarts | client/src/components/PasswordCard.js:96-99 | Splitting on spaces and joining the first characters gives exactly the characters that start a word |
| PasswordCard.InitialsAreWordStarts | client/src/components/PasswordCard.js:95-102 | The initials are the first one or two word starts upper-cased, each the upper case of a non-space character of the title |
| PasswordCard.CardGradient | client/src/components/PasswordCard.js:104-123 | A favourite is amber whatever its strength; otherwise green, amber and red correspond exactly to the three strength buckets, a missing strength falling in the lowest |
| PasswordCard.FavoriteHidesStrength | client/src/components/PasswordCard.js:105-109 | Two favourites have the same background whatever their strengths |
| PasswordCard.Masked | client/src/components/PasswordCard.js:277 | The password is shown only when revealed, otherwise sixteen bullets |
| PasswordCard.MaskLeaksNothing | client/src/components/PasswordCard.js:277 | The hidden text is the same for every password, so not even its length leaks |
| PasswordCard.MissingStrengthIsWeak | client/src/components/PasswordCard.js:315-320 | A missing strength reads as 0: label "Weak", the colour of 0, the error icon, and a background no rated-medium-or-better entry has |
| PasswordListView.TextIsScorerLabel | client/src/components/PasswordListView.js:42-47 | The caption is the scorer's own label at every score |
| PasswordListView.ColorFollowsText | client/src/components/PasswordListView.js:35-40 | In either theme the colour changes exactly where the caption does |
| PasswordListView.ListAgainstCard | client/src/components/PasswordListView.js:43 | The list and the card agree on the caption only from 6 up |
| PasswordListView.PasswordText | client/src/components/PasswordListView.js:118 | A row shows the password exactly when its reveal flag is set, else the sixteen-bullet mask |
| PasswordListView.RowStrengthText | client/src/components/PasswordListView.js:143 | A missing strength reads as 0 and is captioned "Very Weak" |
| PasswordListView.RowStrengthColor | client/src/components/PasswordListView.js:135-139 | A missing strength reads as 0 and gets the grey of "Very Weak"; two rows share a colour exactly when they share a caption |
| PasswordListView.ToggleRevealsRow | client/src/components/PasswordListView.js:118 | Toggling a hidden row reveals it, toggling again hides it, and other rows keep what they show |
| DashboardStats.CountIn | client/src/components/DashboardStats.js:33-35 | A bucket count never exceeds the number of entries |
| DashboardStats.Compute | client/src/components/DashboardStats.js:32-37 | The total is the number of entries and each count is at most the total |
| DashboardStats.BucketsPartition | client/src/components/DashboardStats.js:33-35 | An entry lies in at most one bucket, and in one exactly when it has a strength |
| DashboardStats.BucketsCoverRated | client/src/components/DashboardStats.js:32-35 | The three bucket counts plus the unrated entries make up the total |
| DashboardStats.UnratedZero | client/src/components/DashboardStats.js:33-35 | No entry is unrated exactly when every entry has a strength |
| DashboardStats.BucketsSumToTotal | client/src/components/DashboardStats.js:32-35 | The bucket counts sum to the total exactly when every entry has a strength |
| DashboardStats.StrongMatchesCardLabel | client/src/components/DashboardStats.js:33-34 | The strong and medium cards count what the entry card labels "Strong" and "Medium" |
| DashboardStats.UnratedNotCountedWeak | client/src/components/DashboardStats.js:35 | An unrated entry shows as "Weak" on its card but is not counted as weak |
| DashboardStats.FavoritesMatchFilter | client/src/components/DashboardStats.js:36 | The favourites count is the number of entries the favourites switch shows |
| DashboardStats.Categories | client/src/components/DashboardStats.js:37 | The category of each entry, position by position |
| DashboardStats.Dedup | client/src/components/DashboardStats.js:37 | The de-duplicated list holds exactly the values of the input |
| DashboardStats.FirstIndex | client/src/components/DashboardStats.js:37 | The position of a value's first occurrence holds it and nothing before it does |
| DashboardStats.DedupSpec | client/src/components/DashboardStats.js:37 | The de-duplicated list has no repeats and lists values in the order of their first occurrence |
| DashboardStats.CategoriesOnce | client/src/components/DashboardStats.js:37 | Every category of the vault appears on the categories card, and none twice |
| Migrate.PlanMigrations | server/database/migrate.js:28-42 | The four guarded pushes build the plan: one statement per absent column, in the order tags, favorite, expiry_date, strength |
| Migrate.AlterInjective | server/database/migrate.js:31-42 | The four statements are pairwise different |
| Migrate.PlanMatchesSchema | server/database/migrate.js:31-42 | A column's statement is planned exactly when the column is absent |
| Migrate.PlanDistinct | server/database/migrate.js:28-42 | No statement is planned twice |
| Migrate.EmptyPlanIffAllPresent | server/database/migrate.js:44-49 | The plan is empty exactly when all four columns exist |
| Migrate.PlanIdempotent | server/database/migrate.js:25-44 | Planning again on the schema extended by the planned columns finds nothing to do |
| SqliteBrowser.CellText | server/database/sqlite-browser.js:42 | A falsy value (null, missing, 0 or the empty string) prints as an empty cell |
| SqliteBrowser.BlankIffFalsy | server/database/sqlite-browser.js:42 | A cell is blank exactly when its value is falsy; otherwise it is the string or the number's decimal text |
| SqliteBrowser.WidthUpTo | server/database/sqlite-browser.js:40 | A column is never narrower than its name |
| SqliteBrowser.WidthFits | server/database/sqlite-browser.js:41-44 | Every text of a column fits the column's width |
| SqliteBrowser.WidthAttained | server/database/sqlite-browser.js:39-45 | A column is no wider than needed: its width is its name's length or the length of one of its texts |
| SqliteBrowser.LineStep | server/database/sqlite-browser.js:51-52 | Appending a cell's padded segment to the line so far gives the line through that cell |
| SqliteBrowser.MeasureColumn | server/database/sqlite-browser.js:40-44 | The inner width loop leaves the column's entry at the column's width and every other entry unchanged |
| SqliteBrowser.GatherWidths | server/database/sqlite-browser.js:38-45 | After the outer loop every column's entry in the dictionary is its width |
| SqliteBrowser.FormatRow | server/database/sqlite-browser.js:59-64 | The row loop builds the line of the row's cells padded to the column widths |
| SqliteBrowser.FormatHeader | server/database/sqlite-browser.js:48-53 | The header is the line of column names and the separator the line of dashes, each padded to the widths |
| SqliteBrowser.FormatBody | server/database/sqlite-browser.js:58-65 | One line per row, in row order, each the row's padded cells |
| SqliteBrowser.DisplayResults | server/database/sqlite-browser.js:28-68 | A missing or empty result prints "No results found."; otherwise the header, the separator, one line per row, a blank line and the row count |
| SqliteBrowser.SegmentLength | server/database/sqlite-browser.js:52 | A cell that fits its width takes exactly the width plus three characters |
| SqliteBrowser.LineLength | server/database/sqlite-browser.js:48-64 | A line of cells that fit their widths is one character plus width-plus-three per cell long |
| SqliteBrowser.CellsFit | server/database/sqlite-browser.js:38-45 | Every column name and every row's cells fit the column widths |
| SqliteBrowser.RowLineWidth | server/database/sqlite-browser.js:58-64 | Each row line is exactly as long as the table is wide |
| SqliteBrowser.TableLinesAligned | server/database/sqlite-browser.js:48-65 | The header, the separator and every row line have the same length, so the table's bars line up |
| SqliteBrowser.SegmentSlice | server/database/sqlite-browser.js:61-62 | A segment shows its text unaltered, one space after its start |
| SqliteBrowser.LineUpToShowsCell | server/database/sqlite-browser.js:60-63 | A cell's text stands in the line one space after the segments before it |
| SqliteBrowser.LineShowsCell | server/database/sqlite-browser.js:48-64 | Nothing is truncated: each cell can be read back from its line at a position fixed by the widths before it |

## Left out

- PBKDF2, SHA-256, AES-CBC with PKCS#7 padding, AES-GCM and bcrypt are not computed: they are function parameters, and only the round trip the code depends on is required of them.
- ClientCrypto.EncryptFraming and ClientCrypto.RoundTrip also require that the cipher's text contains no ':'; CryptoJS prints it in Base64, whose alphabet has no ':', but that alphabet is not modelled.
- Randomness (`Math.random`, `crypto.randomInt`, `randomBytes`, `WordArray.random`) is a parameter giving the draws; uniformity and unpredictability are not stated.
- The random IV that the server's `encrypt` draws is never handed to `createCipher`, so nothing is claimed about how the IV is used.
- HTTP, axios, the sqlite callbacks and the 500 responses for database errors are left out: each route is a method on an in-memory table, and a database error cannot happen there.
- The check-then-insert of registration is not atomic in the source; the model runs one request at a time, so two concurrent registrations of one username are not modelled.
- PasswordRoutes.EntryTable.Update: the second 404, for an UPDATE that changes no row after the existence check passed, can only happen under concurrency and is not modelled.
- The list route orders by `updated_at` descending with a stable sort; SQLite leaves the order of ties unspecified, and the model keeps them in table order.
- Tags, favourite, expiry date and strength are not stored by the create and update routes, because the source reads none of them from the request body; the model does not store them either.
- Dashboard.Sort: for a strength sort over rated and unrated entries together, the comparator reads NaN as 0 and is not consistent, so the order JavaScript gives is implementation-defined; the model commits to the order of a stable insertion sort there, and no lemma depends on it.
- PasswordRoutes.EntryTable.List, PasswordRoutes.EntryTable.Delete and PasswordRoutes.EntryTable.Categories take the query's user id as a number; a non-numeric user id, which also passes the guard and then matches no row, is not modelled.
- The date and `localeCompare` comparators of the dashboard sort depend on the clock and the locale; they are a comparator parameter, and only the strength and default comparators are given exactly.
- Lower- and upper-casing (search, the strength patterns, initials) map ASCII letters only; full Unicode case mapping is not modelled.
- Lengths are counted in characters; JavaScript counts UTF-16 code units, which differ for characters outside the Basic Multilingual Plane.
- localStorage persistence is modelled only as the saved user and salt the session is restored from; storage errors and JSON parsing are left out.
- The dashboard's `loadPasswords` and `loadCategories` network calls and `getDomainFromUrl`, which relies on the browser's URL parser, are left out.
- The dashboard percentages and the `score/7` progress bars are floating point and left out.
- PasswordCard.CardGradient: each gradient is one of three values per bucket; the CSS gradient strings, which also depend on the theme, are not modelled.
- Migrate.PlanMigrations: only the list of statements is computed; running them with parallel `db.run` calls, the completion counter and the console output are left out.
- SqliteBrowser.DisplayResults: values are null, integers and strings; SQLite reals and blobs are not modelled, and an integer carries the text `toString()` gives for it.
- The readline loop of the SQLite browser and the console dump of `viewer.js` are left out.
- UI rendering and styling (MUI components, themes, sidebar, header, routing) is left out beyond the values the components compute.

## Findings

| source | as written | input that shows it | evidently intended | confidence | as-written member | corrected member |
|---|---|---|---|---|---|---|
| client/src/components/PasswordGenerator.js:218-264 | Each preset button sets the length and the options, then calls `generateNewPassword`, which still sees the length and options from before the click | The initial state (length 16, all classes on), then "Standard (12 chars)": the slider reads 12 and symbols are off, but the password has 16 characters and may contain symbols | The password is generated with the preset's own length and classes | not executed | PasswordGenerator.Generator.ApplyPresetAsWritten | PasswordGenerator.Generator.ApplyPreset |
