/**
 * The vault endpoints (list, create, update, delete, categories) as
 * operations on the `passwords` table. Every query is scoped by the caller's
 * user id. The server derives the key from the master password the request
 * carries and encrypts `password` and `notes` as AES-GCM blobs.
 */
module PasswordRoutes {
  import opened Wrappers
  import opened Text
  import opened Kdf
  import ServerCrypto

  /**
   * A row of `passwords`, in rowid order. The `tags`, `favorite`,
   * `expiry_date` and `strength` columns are neither written nor read by
   * these endpoints and are not represented.
   */
  datatype EntryRow = EntryRow(
    id: nat, userId: nat, title: string, username: string,
    encPassword: string, encNotes: Option<string>, url: string, category: string,
    createdAt: nat, updatedAt: nat)

  /** An element of the list `GET /` answers with. */
  datatype Entry = Entry(
    id: nat, title: string, username: string, password: string, notes: string,
    url: string, category: string, createdAt: nat, updatedAt: nat)

  datatype Body =
    | Failure(error: string)
    | EntryList(entries: seq<Entry>)
    | Saved(message: string, id: nat)
    | Done(message: string)
    | CategoryList(categories: seq<string>)

  datatype Response = Response(status: nat, body: Body)

  const ListFieldsRequired := "User ID, master password, and salt are required"
  const SaveFieldsRequired := "User ID, master password, salt, title, and password are required"
  const UserIdRequired := "User ID is required"
  const NotFound := "Password not found"
  const SavedMessage := "Password saved successfully"
  const UpdatedMessage := "Password updated successfully"
  const DeletedMessage := "Password deleted successfully"
  const DefaultCategory := "General"

  // ---------------------------------------------------------------------------
  // Listing: ORDER BY updated_at DESC, then decrypt and drop failures

  predicate NewestFirst(s: seq<EntryRow>) {
    forall i, j :: 0 <= i < j < |s| ==> s[i].updatedAt >= s[j].updatedAt
  }

  /** Places `r` before the first row that is not newer than it. */
  function InsertByUpdated(r: EntryRow, s: seq<EntryRow>): (t: seq<EntryRow>)
    requires NewestFirst(s)
    ensures NewestFirst(t)
    ensures forall x :: x in t <==> x in s || x == r
    ensures multiset(t) == multiset(s) + multiset{r}
  {
    if s == [] then [r]
    else if s[0].updatedAt <= r.updatedAt then
      NewestFirstCons(r, s);
      [r] + s
    else
      NewestFirstTail(s);
      var rest := InsertByUpdated(r, s[1..]);
      assert s == [s[0]] + s[1..];
      NewestFirstCons(s[0], rest);
      [s[0]] + rest
  }

  lemma NewestFirstTail(s: seq<EntryRow>)
    requires s != [] && NewestFirst(s)
    ensures NewestFirst(s[1..])
    ensures forall x :: x in s[1..] ==> x.updatedAt <= s[0].updatedAt
  {
    forall x | x in s[1..] ensures x.updatedAt <= s[0].updatedAt {
      var k :| 0 <= k < |s[1..]| && s[1..][k] == x;
      assert s[k + 1] == x;
    }
  }

  /** A row no older than every row of a newest-first list can lead it. */
  lemma NewestFirstCons(r: EntryRow, s: seq<EntryRow>)
    requires NewestFirst(s) && forall x :: x in s ==> x.updatedAt <= r.updatedAt
    ensures NewestFirst([r] + s)
  {
    var t := [r] + s;
    forall i, j | 0 <= i < j < |t| ensures t[i].updatedAt >= t[j].updatedAt {
      assert t[j] == s[j - 1];
      if i > 0 {
        assert t[i] == s[i - 1];
      } else {
        assert s[j - 1] in s;
      }
    }
  }

  predicate EntriesNewestFirst(es: seq<Entry>) {
    forall i, j :: 0 <= i < j < |es| ==> es[i].updatedAt >= es[j].updatedAt
  }

  /** The rows newest first; rows with equal timestamps keep their table order. */
  function SortNewestFirst(s: seq<EntryRow>): (t: seq<EntryRow>)
    ensures NewestFirst(t)
    ensures multiset(t) == multiset(s)
  {
    if s == [] then []
    else
      assert s == [s[0]] + s[1..];
      InsertByUpdated(s[0], SortNewestFirst(s[1..]))
  }

  /** The caller's rows, in table order (`WHERE user_id = ?`). */
  function RowsOf(rows: seq<EntryRow>, userId: nat): (t: seq<EntryRow>)
    ensures forall r :: r in t <==> r in rows && r.userId == userId
  {
    if rows == [] then []
    else (if rows[0].userId == userId then [rows[0]] else []) + RowsOf(rows[1..], userId)
  }

  /** The `map` callback: decrypt the password and, when present, the notes; `None` stands for the `null` of a failure. */
  function Project(row: EntryRow, key: seq<byte>, open: ServerCrypto.Opener): (e: Option<Entry>)
  {
    var password := ServerCrypto.Decrypt(row.encPassword, key, open);
    var notes :=
      if row.encNotes.Some? && row.encNotes.value != [] then ServerCrypto.Decrypt(row.encNotes.value, key, open)
      else Ok("");
    if password.Err? || notes.Err? then None
    else Some(Entry(row.id, row.title, row.username, password.value, notes.value,
                    row.url, row.category, row.createdAt, row.updatedAt))
  }

  /** `.map(...).filter(Boolean)`: the rows that decrypt, projected, in the same order. */
  function ProjectAll(rows: seq<EntryRow>, key: seq<byte>, open: ServerCrypto.Opener): (es: seq<Entry>)
    ensures |es| <= |rows|
  {
    if rows == [] then []
    else
      var rest := ProjectAll(rows[1..], key, open);
      match Project(rows[0], key, open)
      case None => rest
      case Some(e) => [e] + rest
  }

  /** Every listed entry is the projection of one of the rows. */
  lemma {:induction false} ProjectAllSound(rows: seq<EntryRow>, key: seq<byte>, open: ServerCrypto.Opener, e: Entry)
    requires e in ProjectAll(rows, key, open)
    ensures exists r :: r in rows && Project(r, key, open) == Some(e)
  {
    if rows != [] {
      var rest := ProjectAll(rows[1..], key, open);
      if e in rest {
        ProjectAllSound(rows[1..], key, open, e);
        var r :| r in rows[1..] && Project(r, key, open) == Some(e);
        assert r in rows;
      } else {
        assert Project(rows[0], key, open) == Some(e);
      }
    }
  }

  /** Every row that decrypts is listed. */
  lemma {:induction false} ProjectAllComplete(rows: seq<EntryRow>, key: seq<byte>, open: ServerCrypto.Opener, r: EntryRow)
    requires r in rows && Project(r, key, open).Some?
    ensures Project(r, key, open).value in ProjectAll(rows, key, open)
  {
    if r != rows[0] {
      ProjectAllComplete(rows[1..], key, open, r);
    }
  }

  /** Dropping failures keeps the newest-first order. */
  lemma {:induction false} ProjectAllNewestFirst(rows: seq<EntryRow>, key: seq<byte>, open: ServerCrypto.Opener)
    requires NewestFirst(rows)
    ensures EntriesNewestFirst(ProjectAll(rows, key, open))
  {
    if rows != [] {
      var rest := ProjectAll(rows[1..], key, open);
      NewestFirstTail(rows);
      ProjectAllNewestFirst(rows[1..], key, open);
      if Project(rows[0], key, open).Some? {
        var e := Project(rows[0], key, open).value;
        forall x | x in rest ensures x.updatedAt <= e.updatedAt {
          ProjectAllSound(rows[1..], key, open, x);
        }
        assert ProjectAll(rows, key, open) == [e] + rest;
        EntriesNewestFirstCons(e, rest);
      } else {
        assert ProjectAll(rows, key, open) == rest;
      }
    }
  }

  lemma EntriesNewestFirstCons(e: Entry, es: seq<Entry>)
    requires EntriesNewestFirst(es) && forall x :: x in es ==> x.updatedAt <= e.updatedAt
    ensures EntriesNewestFirst([e] + es)
  {
    var t := [e] + es;
    forall i, j | 0 <= i < j < |t| ensures t[i].updatedAt >= t[j].updatedAt {
      assert t[j] == es[j - 1];
      if i > 0 {
        assert t[i] == es[i - 1];
      } else {
        assert es[j - 1] in es;
      }
    }
  }

  // ---------------------------------------------------------------------------
  // Categories: SELECT DISTINCT category ... ORDER BY category

  predicate StrictlyAscending(s: seq<string>) {
    forall i, j :: 0 <= i < j < |s| ==> LexLess(s[i], s[j])
  }

  function InsertCategory(c: string, s: seq<string>): (t: seq<string>)
    requires StrictlyAscending(s)
    ensures StrictlyAscending(t)
    ensures forall x :: x in t <==> x in s || x == c
    decreases |s|
  {
    if s == [] then [c]
    else if c == s[0] then s
    else if LexLess(c, s[0]) then
      assert forall j :: 0 <= j < |s| ==> LexLess(c, s[j]) by {
        forall j | 0 < j < |s| ensures LexLess(c, s[j]) { LexLessTransitive(c, s[0], s[j]); }
      }
      [c] + s
    else
      LexLessTotal(c, s[0]);
      var rest := InsertCategory(c, s[1..]);
      assert forall x :: x in rest ==> LexLess(s[0], x);
      [s[0]] + rest
  }

  /** Each value once, in ascending code-point order. */
  function SortedDistinct(cs: seq<string>): (t: seq<string>)
    ensures StrictlyAscending(t)
    ensures forall x :: x in t <==> x in cs
  {
    if cs == [] then []
    else
      var init := cs[..|cs| - 1];
      assert cs == init + [cs[|cs| - 1]];
      InsertCategory(cs[|cs| - 1], SortedDistinct(init))
  }

  function CategoriesOf(rows: seq<EntryRow>): (cs: seq<string>)
    ensures |cs| == |rows|
    ensures forall i :: 0 <= i < |rows| ==> cs[i] == rows[i].category
  {
    seq(|rows|, i requires 0 <= i < |rows| => rows[i].category)
  }

  // ---------------------------------------------------------------------------
  // The table

  /** Some row has this id and belongs to this user. */
  predicate Owns(rows: seq<EntryRow>, id: nat, userId: nat) {
    exists i :: 0 <= i < |rows| && rows[i].id == id && rows[i].userId == userId
  }

  /** The row after `UPDATE ... SET title, username, encrypted_password, encrypted_notes, url, category, updated_at`. */
  function Revised(row: EntryRow, title: string, username: string, encPassword: string,
                   encNotes: Option<string>, url: string, category: string, now: nat): EntryRow
  {
    row.(title := title, username := username, encPassword := encPassword, encNotes := encNotes,
         url := url, category := category, updatedAt := now)
  }

  predicate IdsAscending(rows: seq<EntryRow>) {
    forall i, j :: 0 <= i < j < |rows| ==> rows[i].id < rows[j].id
  }

  /** `DELETE ... WHERE id = ? AND user_id = ?`: every other row, in order. */
  function Without(rows: seq<EntryRow>, id: nat, userId: nat): (t: seq<EntryRow>)
    ensures |t| <= |rows|
    ensures forall r :: r in t <==> r in rows && !(r.id == id && r.userId == userId)
  {
    if rows == [] then []
    else
      var rest := Without(rows[1..], id, userId);
      if rows[0].id == id && rows[0].userId == userId then rest else [rows[0]] + rest
  }

  /** Nothing is removed exactly when no row has that id and user. */
  lemma {:induction false} WithoutRemovesOwned(rows: seq<EntryRow>, id: nat, userId: nat)
    ensures |Without(rows, id, userId)| == |rows| <==> !Owns(rows, id, userId)
  {
    if rows != [] {
      WithoutRemovesOwned(rows[1..], id, userId);
      if Owns(rows, id, userId) && !(rows[0].id == id && rows[0].userId == userId) {
        var i :| 0 <= i < |rows| && rows[i].id == id && rows[i].userId == userId;
        assert rows[1..][i - 1] == rows[i];
      }
      if Owns(rows[1..], id, userId) {
        var i :| 0 <= i < |rows[1..]| && rows[1..][i].id == id && rows[1..][i].userId == userId;
        assert rows[i + 1] == rows[1..][i];
      }
    }
  }

  /** The rows that stay keep their table order. */
  lemma {:induction false} WithoutKeepsOrder(rows: seq<EntryRow>, id: nat, userId: nat)
    requires IdsAscending(rows)
    ensures IdsAscending(Without(rows, id, userId))
  {
    if rows != [] {
      WithoutKeepsOrder(rows[1..], id, userId);
      var rest := Without(rows[1..], id, userId);
      if !(rows[0].id == id && rows[0].userId == userId) {
        forall x | x in rest ensures rows[0].id < x.id {
          TailIdsAbove(rows, x);
        }
        ConsAscending(rows[0], rest);
      }
    }
  }

  lemma TailIdsAbove(rows: seq<EntryRow>, x: EntryRow)
    requires IdsAscending(rows) && rows != [] && x in rows[1..]
    ensures rows[0].id < x.id
  {
    var k :| 0 <= k < |rows[1..]| && rows[1..][k] == x;
    assert rows[k + 1] == x;
  }

  lemma ConsAscending(h: EntryRow, rest: seq<EntryRow>)
    requires IdsAscending(rest) && forall x :: x in rest ==> h.id < x.id
    ensures IdsAscending([h] + rest)
  {
    var t := [h] + rest;
    forall i, j | 0 <= i < j < |t| ensures t[i].id < t[j].id {
      assert t[j] == rest[j - 1];
      if i > 0 { assert t[i] == rest[i - 1]; }
    }
  }

  /** A sequence without members is empty. */
  lemma NoMemberEmpty<T>(s: seq<T>)
    ensures (forall x :: x !in s) ==> s == []
  {
    if s != [] {
      assert s[0] in s;
    }
  }

  class EntryTable {
    var rows: seq<EntryRow>
    /** The AUTOINCREMENT counter. */
    var nextId: nat

    ghost predicate Valid()
      reads this
    {
      nextId >= 1
      && (forall i :: 0 <= i < |rows| ==> 1 <= rows[i].id < nextId && rows[i].userId >= 1)
      && IdsAscending(rows)
    }

    constructor ()
      ensures Valid() && rows == [] && nextId == 1
    {
      rows := [];
      nextId := 1;
    }

    /** The caller's rows newest first, decrypted with `key`, failures dropped. */
    function Listed(userId: nat, key: seq<byte>, open: ServerCrypto.Opener): seq<Entry>
      reads this
    {
      ProjectAll(SortNewestFirst(RowsOf(rows, userId)), key, open)
    }

    /**
     * `GET /`: 400 without user id, master password or salt; otherwise the
     * listing under the key derived from the master password and salt.
     * The user id comes from the query string: `None` when it is absent or
     * empty, and `Some(n)` for the number it spells, `0` included, since
     * the string `'0'` is truthy.
     */
    function List(userId: Option<nat>, masterPassword: string, salt: string,
                  pbkdf2: Pbkdf2Call -> seq<byte>, open: ServerCrypto.Opener): (r: Response)
      reads this
      ensures r.status == 400 <==> userId.None? || masterPassword == [] || salt == []
      ensures r.status == 400 ==> r.body == Failure(ListFieldsRequired)
      ensures r.status != 400 ==>
        r == Response(200, EntryList(Listed(userId.value, ServerCrypto.DeriveKey(masterPassword, salt, pbkdf2), open)))
    {
      if userId.None? || masterPassword == [] || salt == [] then Response(400, Failure(ListFieldsRequired))
      else
        var key := ServerCrypto.DeriveKey(masterPassword, salt, pbkdf2);
        Response(200, EntryList(Listed(userId.value, key, open)))
    }

    /** Every listed entry comes from one of the caller's rows. */
    lemma ListedOnlyOwnRows(userId: nat, key: seq<byte>, open: ServerCrypto.Opener, e: Entry)
      requires e in Listed(userId, key, open)
      ensures exists row :: row in rows && row.userId == userId && Project(row, key, open) == Some(e)
    {
      var sorted := SortNewestFirst(RowsOf(rows, userId));
      ProjectAllSound(sorted, key, open, e);
      var row :| row in sorted && Project(row, key, open) == Some(e);
      assert row in multiset(sorted);
      assert row in multiset(RowsOf(rows, userId));
      assert row in RowsOf(rows, userId);
    }

    /** Every row of the caller that decrypts is listed; the others are dropped silently. */
    lemma ListedEveryReadableRow(userId: nat, key: seq<byte>, open: ServerCrypto.Opener, row: EntryRow)
      requires row in rows && row.userId == userId && Project(row, key, open).Some?
      ensures Project(row, key, open).value in Listed(userId, key, open)
    {
      var sorted := SortNewestFirst(RowsOf(rows, userId));
      assert row in multiset(RowsOf(rows, userId));
      assert row in sorted;
      ProjectAllComplete(sorted, key, open, row);
    }

    /** The listing is ordered by last update, newest first. */
    lemma ListedNewestFirst(userId: nat, key: seq<byte>, open: ServerCrypto.Opener)
      ensures EntriesNewestFirst(Listed(userId, key, open))
    {
      var sorted := SortNewestFirst(RowsOf(rows, userId));
      ProjectAllNewestFirst(sorted, key, open);
      assert Listed(userId, key, open) == ProjectAll(sorted, key, open);
    }

    /** A row stored without notes (NULL or '') is listed with notes ''. */
    lemma MissingNotesListedEmpty(row: EntryRow, key: seq<byte>, open: ServerCrypto.Opener)
      requires row.encNotes == None || row.encNotes == Some("")
      requires ServerCrypto.Decrypt(row.encPassword, key, open).Ok?
      ensures Project(row, key, open).Some? && Project(row, key, open).value.notes == ""
    {
    }

    /**
     * `POST /`: 400 unless user id, master password, salt, title and password
     * are given; otherwise one new row with the defaults username '', url '',
     * category 'General' and no notes when the notes are empty.
     */
    method Create(userId: nat, masterPassword: string, salt: string, title: string, username: string,
                  password: string, notes: string, url: string, category: string, now: nat,
                  ivPassword: seq<byte>, ivNotes: seq<byte>,
                  pbkdf2: Pbkdf2Call -> seq<byte>, seal: ServerCrypto.Sealer) returns (r: Response)
      requires Valid()
      modifies this
      ensures Valid()
      ensures userId == 0 || masterPassword == [] || salt == [] || title == [] || password == [] ==>
        r == Response(400, Failure(SaveFieldsRequired)) && rows == old(rows) && nextId == old(nextId)
      ensures userId != 0 && masterPassword != [] && salt != [] && title != [] && password != [] ==>
        var key := ServerCrypto.DeriveKey(masterPassword, salt, pbkdf2);
        && r == Response(201, Saved(SavedMessage, old(nextId)))
        && nextId == old(nextId) + 1
        && rows == old(rows) + [EntryRow(old(nextId), userId, title, username,
             ServerCrypto.Encrypt(password, key, ivPassword, seal),
             if notes == [] then None else Some(ServerCrypto.Encrypt(notes, key, ivNotes, seal)),
             url, if category == [] then DefaultCategory else category, now, now)]
    {
      if userId == 0 || masterPassword == [] || salt == [] || title == [] || password == [] {
        return Response(400, Failure(SaveFieldsRequired));
      }
      var key := ServerCrypto.DeriveKey(masterPassword, salt, pbkdf2);
      var encryptedPassword := ServerCrypto.Encrypt(password, key, ivPassword, seal);
      var encryptedNotes := if notes != [] then Some(ServerCrypto.Encrypt(notes, key, ivNotes, seal)) else None;
      var row := EntryRow(nextId, userId, title, if username != [] then username else "",
                          encryptedPassword, encryptedNotes, if url != [] then url else "",
                          if category != [] then category else DefaultCategory, now, now);
      rows := rows + [row];
      r := Response(201, Saved(SavedMessage, nextId));
      nextId := nextId + 1;
    }

    /**
     * `PUT /:id`: 400 on a missing field, 404 unless the row exists AND
     * belongs to the caller; otherwise that row is rewritten and stamped, and
     * no other row changes.
     */
    method Update(id: nat, userId: nat, masterPassword: string, salt: string, title: string, username: string,
                  password: string, notes: string, url: string, category: string, now: nat,
                  ivPassword: seq<byte>, ivNotes: seq<byte>,
                  pbkdf2: Pbkdf2Call -> seq<byte>, seal: ServerCrypto.Sealer) returns (r: Response)
      requires Valid()
      modifies this
      ensures Valid() && nextId == old(nextId)
      ensures userId == 0 || masterPassword == [] || salt == [] || title == [] || password == [] ==>
        r == Response(400, Failure(SaveFieldsRequired)) && rows == old(rows)
      ensures userId != 0 && masterPassword != [] && salt != [] && title != [] && password != []
              && !Owns(old(rows), id, userId) ==>
        r == Response(404, Failure(NotFound)) && rows == old(rows)
      ensures userId != 0 && masterPassword != [] && salt != [] && title != [] && password != []
              && Owns(old(rows), id, userId) ==>
        var key := ServerCrypto.DeriveKey(masterPassword, salt, pbkdf2);
        && r == Response(200, Done(UpdatedMessage))
        && |rows| == |old(rows)|
        && forall i :: 0 <= i < |rows| ==>
             rows[i] == if old(rows)[i].id == id && old(rows)[i].userId == userId
                        then Revised(old(rows)[i], title, username,
                                     ServerCrypto.Encrypt(password, key, ivPassword, seal),
                                     if notes == [] then None else Some(ServerCrypto.Encrypt(notes, key, ivNotes, seal)),
                                     url, if category == [] then DefaultCategory else category, now)
                        else old(rows)[i]
    {
      if userId == 0 || masterPassword == [] || salt == [] || title == [] || password == [] {
        return Response(400, Failure(SaveFieldsRequired));
      }
      if !Owns(rows, id, userId) {
        return Response(404, Failure(NotFound));
      }
      var key := ServerCrypto.DeriveKey(masterPassword, salt, pbkdf2);
      var encryptedPassword := ServerCrypto.Encrypt(password, key, ivPassword, seal);
      var encryptedNotes := if notes != [] then Some(ServerCrypto.Encrypt(notes, key, ivNotes, seal)) else None;
      var newCategory := if category != [] then category else DefaultCategory;
      var old_rows := rows;
      rows := seq(|old_rows|, i requires 0 <= i < |old_rows| =>
        if old_rows[i].id == id && old_rows[i].userId == userId
        then Revised(old_rows[i], title, username, encryptedPassword, encryptedNotes, url, newCategory, now)
        else old_rows[i]);
      return Response(200, Done(UpdatedMessage));
    }

    /** `DELETE /:id`: removes the caller's row with that id; 404 when nothing was removed. */
    method Delete(id: nat, userId: Option<nat>) returns (r: Response)
      requires Valid()
      modifies this
      ensures Valid() && nextId == old(nextId)
      ensures userId.None? ==> r == Response(400, Failure(UserIdRequired)) && rows == old(rows)
      ensures userId.Some? ==> rows == Without(old(rows), id, userId.value)
      ensures userId.Some? ==> (r == Response(404, Failure(NotFound)) <==> !Owns(old(rows), id, userId.value))
      ensures userId.Some? && Owns(old(rows), id, userId.value) ==> r == Response(200, Done(DeletedMessage))
    {
      if userId.None? {
        return Response(400, Failure(UserIdRequired));
      }
      var owner := userId.value;
      var before := |rows|;
      WithoutRemovesOwned(rows, id, owner);
      WithoutKeepsOrder(rows, id, owner);
      rows := Without(rows, id, owner);
      if |rows| == before {
        return Response(404, Failure(NotFound));
      }
      return Response(200, Done(DeletedMessage));
    }

    /** `GET /categories`: the caller's distinct categories in ascending order. */
    function Categories(userId: Option<nat>): (r: Response)
      reads this
      ensures userId.None? ==> r == Response(400, Failure(UserIdRequired))
      ensures userId.Some? ==> r.status == 200 && r.body.CategoryList? && StrictlyAscending(r.body.categories)
      ensures userId.Some? ==> forall c :: c in r.body.categories <==>
        exists row :: row in rows && row.userId == userId.value && row.category == c
    {
      if userId.None? then Response(400, Failure(UserIdRequired))
      else
        var mine := RowsOf(rows, userId.value);
        var cs := CategoriesOf(mine);
        assert forall c :: c in cs <==> exists row :: row in mine && row.category == c by {
          forall c ensures c in cs <==> exists row :: row in mine && row.category == c {
            if c in cs {
              var i :| 0 <= i < |cs| && cs[i] == c;
              assert mine[i] in mine;
            }
            if exists row :: row in mine && row.category == c {
              var row :| row in mine && row.category == c;
              var i :| 0 <= i < |mine| && mine[i] == row;
              assert cs[i] == c;
            }
          }
        }
        Response(200, CategoryList(SortedDistinct(cs)))
    }

    /**
     * `?userId=0` gets past the guards of the query routes but matches no
     * row, since user ids start at 1: the listing and the categories are
     * empty and a delete finds nothing to remove.
     */
    lemma QueryForUserZero(id: nat, key: seq<byte>, open: ServerCrypto.Opener)
      requires Valid()
      ensures Listed(0, key, open) == []
      ensures !Owns(rows, id, 0)
      ensures Categories(Some(0)) == Response(200, CategoryList([]))
    {
      NoMemberEmpty(RowsOf(rows, 0));
      NoMemberEmpty(Categories(Some(0)).body.categories);
    }
  }
}
