/**
 * The vault dashboard: the visible list (filter, then sort), the favourite
 * and reveal toggles, clearing the filters, the guards in front of a save,
 * opening an entry's site, and re-entering the master password.
 */
module Dashboard {
  import opened Wrappers
  import opened Text
  import opened Kdf
  import ClientCrypto
  import Session
  import PasswordDialog

  /**
   * An entry as the dashboard holds it: the server's fields with the
   * password and notes decrypted. `favorite` is toggled locally; `strength`
   * is never sent by the server and so is usually absent.
   */
  datatype Item = Item(
    id: nat,
    title: string,
    username: string,
    password: string,
    notes: string,
    url: string,
    category: string,
    createdAt: string,
    updatedAt: string,
    favorite: bool,
    strength: Option<int>)

  // ---------------------------------------------------------------------------
  // Filtering

  /** The search box, the category selector and the favourites switch. */
  datatype Filters = Filters(searchTerm: string, selectedCategory: string, showFavorites: bool)

  const AllCategories := "All"

  /** What `handleClearFilters` sets. */
  const Cleared := Filters("", AllCategories, false)

  /** Case-insensitive substring match on the title, the username or the url. */
  predicate MatchesSearch(x: Item, term: string) {
    var t := ToLower(term);
    Contains(ToLower(x.title), t) || Contains(ToLower(x.username), t) || Contains(ToLower(x.url), t)
  }

  predicate MatchesCategory(x: Item, category: string) {
    category == AllCategories || x.category == category
  }

  predicate MatchesFavorites(x: Item, showFavorites: bool) {
    !showFavorites || x.favorite
  }

  predicate Matches(x: Item, f: Filters) {
    MatchesSearch(x, f.searchTerm) && MatchesCategory(x, f.selectedCategory) && MatchesFavorites(x, f.showFavorites)
  }

  /** `passwords.filter(...)`: the matching entries in their original order. */
  function Filter(items: seq<Item>, f: Filters): (r: seq<Item>)
    ensures |r| <= |items|
    ensures forall x :: x in r <==> x in items && Matches(x, f)
  {
    if items == [] then []
    else
      var rest := Filter(items[1..], f);
      assert forall x :: x in items <==> x == items[0] || x in items[1..];
      if Matches(items[0], f) then [items[0]] + rest else rest
  }

  /** An entry every filter lets through is kept in place; the filter changes nothing then. */
  lemma {:induction false} FilterKeepsAll(items: seq<Item>, f: Filters)
    requires forall x :: x in items ==> Matches(x, f)
    ensures Filter(items, f) == items
  {
    if items != [] {
      FilterKeepsAll(items[1..], f);
    }
  }

  /** The filter keeps the entries' relative order: its result is the original list with some entries removed. */
  lemma {:induction false} FilterIsSubsequence(items: seq<Item>, f: Filters)
    ensures IsSubsequence(Filter(items, f), items)
  {
    if items != [] {
      FilterIsSubsequence(items[1..], f);
      if Matches(items[0], f) {
        assert Filter(items, f) == [items[0]] + Filter(items[1..], f);
      }
    }
  }

  /** `a` can be obtained by deleting entries of `b`. */
  predicate IsSubsequence(a: seq<Item>, b: seq<Item>)
    decreases |b|
  {
    if a == [] then true
    else if b == [] then false
    else if a[0] == b[0] then IsSubsequence(a[1..], b[1..])
    else IsSubsequence(a, b[1..])
  }

  /** The empty search term is contained in every string. */
  lemma EmptyTermMatches(x: Item)
    ensures MatchesSearch(x, "")
  {
    assert OccursAt(ToLower(x.title), ToLower(""), 0);
  }

  /** The search box's "filters active" indicator. */
  predicate HasActiveFilters(f: Filters) {
    f.searchTerm != [] || f.selectedCategory != AllCategories || f.showFavorites
  }

  /** With no filter active every entry passes, so the list is shown whole. */
  lemma InactiveFiltersKeepAll(items: seq<Item>, f: Filters)
    requires !HasActiveFilters(f)
    ensures forall x :: Matches(x, f)
    ensures Filter(items, f) == items
  {
    forall x ensures Matches(x, f) {
      EmptyTermMatches(x);
    }
    FilterKeepsAll(items, f);
  }

  /** After clearing, no filter is active and every entry is shown. */
  lemma ClearedShowsAll(items: seq<Item>)
    ensures !HasActiveFilters(Cleared)
    ensures Filter(items, Cleared) == items
  {
    InactiveFiltersKeepAll(items, Cleared);
  }

  // ---------------------------------------------------------------------------
  // Sorting

  /** The values of the sort selector; anything else falls to the default branch. */
  datatype SortKey = ByTitle | ByUsername | ByCategory | ByCreated | ByUpdated | ByStrength | Unrecognised(name: string)

  /**
   * The comparators that call `localeCompare` or subtract parsed dates depend
   * on the locale and the clock and are given as a parameter.
   */
  type ForeignCompare = (SortKey, Item, Item) -> int

  /** A strength, read as a number: an absent one is 0 for ordering purposes. */
  function Level(x: Item): int {
    if x.strength.Some? then x.strength.value else 0
  }

  /**
   * The sort callback's result as the sort sees it: `b.strength - a.strength`
   * is NaN when either strength is undefined, and the sort reads NaN as 0.
   */
  function Compare(key: SortKey, a: Item, b: Item, foreign: ForeignCompare): int {
    match key
    case ByStrength => if a.strength.Some? && b.strength.Some? then b.strength.value - a.strength.value else 0
    case Unrecognised(_) => 0
    case _ => foreign(key, a, b)
  }

  /** Places `x`, the next entry in input order, after every entry it does not precede. */
  function Insert(t: seq<Item>, x: Item, key: SortKey, foreign: ForeignCompare): (r: seq<Item>)
    ensures multiset(r) == multiset(t) + multiset{x}
  {
    if t == [] then [x]
    else if Compare(key, x, t[|t| - 1], foreign) < 0 then
      assert t == t[..|t| - 1] + [t[|t| - 1]];
      Insert(t[..|t| - 1], x, key, foreign) + [t[|t| - 1]]
    else t + [x]
  }

  /** `Array.prototype.sort`, which is stable: a stable insertion sort with the callback. */
  function Sort(s: seq<Item>, key: SortKey, foreign: ForeignCompare): (r: seq<Item>)
    ensures multiset(r) == multiset(s)
  {
    if s == [] then []
    else
      assert s == s[..|s| - 1] + [s[|s| - 1]];
      Insert(Sort(s[..|s| - 1], key, foreign), s[|s| - 1], key, foreign)
  }

  /** The list the dashboard shows. */
  function Visible(items: seq<Item>, f: Filters, key: SortKey, foreign: ForeignCompare): seq<Item> {
    Sort(Filter(items, f), key, foreign)
  }

  /** The callback answers 0 for every pair of entries of `s`. */
  predicate Neutral(s: seq<Item>, key: SortKey, foreign: ForeignCompare) {
    forall i, j :: 0 <= i < |s| && 0 <= j < |s| ==> Compare(key, s[i], s[j], foreign) == 0
  }

  lemma NeutralPrefix(s: seq<Item>, key: SortKey, foreign: ForeignCompare)
    requires s != [] && Neutral(s, key, foreign)
    ensures Neutral(s[..|s| - 1], key, foreign)
    ensures |s| >= 2 ==> Compare(key, s[|s| - 1], s[|s| - 2], foreign) == 0
  {
    var init := s[..|s| - 1];
    forall i, j | 0 <= i < |init| && 0 <= j < |init| ensures Compare(key, init[i], init[j], foreign) == 0 {
      assert init[i] == s[i] && init[j] == s[j];
    }
  }

  /** A comparator that answers 0 for every pair leaves the order as it was. */
  lemma {:induction false} NeutralSortKeepsOrder(s: seq<Item>, key: SortKey, foreign: ForeignCompare)
    requires Neutral(s, key, foreign)
    ensures Sort(s, key, foreign) == s
  {
    if s != [] {
      var init, last := s[..|s| - 1], s[|s| - 1];
      assert s == init + [last];
      assert Sort(s, key, foreign) == Insert(Sort(init, key, foreign), last, key, foreign);
      NeutralPrefix(s, key, foreign);
      NeutralSortKeepsOrder(init, key, foreign);
      InsertAtEnd(init, last, key, foreign);
    }
  }

  /** An entry that does not precede the last one is placed at the end. */
  lemma InsertAtEnd(t: seq<Item>, x: Item, key: SortKey, foreign: ForeignCompare)
    requires t == [] || Compare(key, x, t[|t| - 1], foreign) >= 0
    ensures Insert(t, x, key, foreign) == t + [x]
  {
  }

  /** An unrecognised sort key uses the default comparator 0, so the filtered order is kept. */
  lemma UnrecognisedKeyKeepsOrder(s: seq<Item>, name: string, foreign: ForeignCompare)
    ensures Sort(s, Unrecognised(name), foreign) == s
  {
    NeutralSortKeepsOrder(s, Unrecognised(name), foreign);
  }

  /** Entries without a strength (all of them, as loaded) are never reordered by the strength sort. */
  lemma UnratedStrengthSortKeepsOrder(s: seq<Item>, foreign: ForeignCompare)
    requires forall x :: x in s ==> x.strength == None
    ensures Sort(s, ByStrength, foreign) == s
  {
    assert forall i :: 0 <= i < |s| ==> s[i] in s;
    NeutralSortKeepsOrder(s, ByStrength, foreign);
  }

  predicate Rated(s: seq<Item>) {
    forall x :: x in s ==> x.strength.Some?
  }

  /** Strengths never increase along the list. */
  predicate StrongestFirst(s: seq<Item>) {
    forall i, j :: 0 <= i < j < |s| ==> Level(s[j]) <= Level(s[i])
  }

  lemma {:induction false} InsertStrongestFirst(t: seq<Item>, x: Item, foreign: ForeignCompare)
    requires Rated(t) && x.strength.Some? && StrongestFirst(t)
    ensures StrongestFirst(Insert(t, x, ByStrength, foreign))
  {
    if t != [] {
      var init, last := t[..|t| - 1], t[|t| - 1];
      if Compare(ByStrength, x, last, foreign) < 0 {
        assert forall y :: y in init ==> y in t;
        InsertStrongestFirst(init, x, foreign);
        var u := Insert(init, x, ByStrength, foreign);
        forall y | y in u ensures Level(last) <= Level(y) {
          assert y in multiset(init) + multiset{x};
          if y != x {
            var k :| 0 <= k < |init| && init[k] == y;
            assert t[k] == y;
          }
        }
        AppendWeakest(u, last);
      } else {
        forall y | y in t ensures Level(x) <= Level(y) {
          var k :| 0 <= k < |t| && t[k] == y;
        }
        AppendWeakest(t, x);
      }
    }
  }

  /** Appending an entry no stronger than any listed keeps the strongest first. */
  lemma AppendWeakest(u: seq<Item>, z: Item)
    requires StrongestFirst(u) && forall y :: y in u ==> Level(z) <= Level(y)
    ensures StrongestFirst(u + [z])
  {
    var r := u + [z];
    forall i, j | 0 <= i < j < |r| ensures Level(r[j]) <= Level(r[i]) {
      if j == |u| {
        assert r[i] in u;
      } else {
        assert r[i] == u[i] && r[j] == u[j];
      }
    }
  }

  /** Sorting by strength lists the strongest entries first when every entry has a strength. */
  lemma {:induction false} StrengthSortStrongestFirst(s: seq<Item>, foreign: ForeignCompare)
    requires Rated(s)
    ensures StrongestFirst(Sort(s, ByStrength, foreign))
    ensures multiset(Sort(s, ByStrength, foreign)) == multiset(s)
  {
    if s != [] {
      var init := s[..|s| - 1];
      assert forall a :: a in init ==> a in s;
      StrengthSortStrongestFirst(init, foreign);
      var sorted := Sort(init, ByStrength, foreign);
      forall y | y in sorted ensures y.strength.Some? {
        assert y in multiset(init);
      }
      InsertStrongestFirst(sorted, s[|s| - 1], foreign);
    }
  }

  // ---------------------------------------------------------------------------
  // Toggles

  /** `handleToggleFavorite`'s map: only entries with the given id have `favorite` flipped. */
  function ToggleFavorite(items: seq<Item>, id: nat): (r: seq<Item>)
    ensures |r| == |items|
    ensures forall i :: 0 <= i < |items| && items[i].id != id ==> r[i] == items[i]
    ensures forall i :: 0 <= i < |items| && items[i].id == id ==> r[i] == items[i].(favorite := !items[i].favorite)
  {
    seq(|items|, i requires 0 <= i < |items| =>
      if items[i].id == id then items[i].(favorite := !items[i].favorite) else items[i])
  }

  /** Toggling the same entry twice restores the list. */
  lemma ToggleFavoriteTwice(items: seq<Item>, id: nat)
    ensures ToggleFavorite(ToggleFavorite(items, id), id) == items
  {
  }

  /** Whether an entry's password is revealed: an entry never toggled is hidden. */
  predicate Revealed(shown: map<nat, bool>, id: nat) {
    id in shown && shown[id]
  }

  /** `handleTogglePasswordVisibility`'s update: `[id]: !prev[id]`, an absent flag reading as false. */
  function ToggleVisibility(shown: map<nat, bool>, id: nat): (r: map<nat, bool>)
    ensures r.Keys == shown.Keys + {id}
    ensures Revealed(r, id) == !Revealed(shown, id)
    ensures forall k :: k != id ==> Revealed(r, k) == Revealed(shown, k)
  {
    shown[id := !Revealed(shown, id)]
  }

  // ---------------------------------------------------------------------------
  // The dashboard's state

  class View {
    var passwords: seq<Item>
    var showPasswords: map<nat, bool>
    var searchTerm: string
    var selectedCategory: string
    var showFavorites: bool
    var sortBy: SortKey

    /** The initial state: nothing loaded, no filter, sorted by last update. */
    constructor ()
      ensures passwords == [] && showPasswords == map[]
      ensures Current() == Cleared && sortBy == ByUpdated
    {
      passwords := [];
      showPasswords := map[];
      searchTerm := [];
      selectedCategory := AllCategories;
      showFavorites := false;
      sortBy := ByUpdated;
    }

    function Current(): Filters
      reads this
    {
      Filters(searchTerm, selectedCategory, showFavorites)
    }

    /** `filteredAndSortedPasswords`. */
    function Shown(foreign: ForeignCompare): seq<Item>
      reads this
    {
      Visible(passwords, Current(), sortBy, foreign)
    }

    method HandleToggleFavorite(id: nat)
      modifies this
      ensures passwords == ToggleFavorite(old(passwords), id)
      ensures showPasswords == old(showPasswords) && Current() == old(Current()) && sortBy == old(sortBy)
    {
      passwords := ToggleFavorite(passwords, id);
    }

    method HandleTogglePasswordVisibility(id: nat)
      modifies this
      ensures showPasswords == ToggleVisibility(old(showPasswords), id)
      ensures passwords == old(passwords) && Current() == old(Current()) && sortBy == old(sortBy)
    {
      showPasswords := ToggleVisibility(showPasswords, id);
    }

    /** `handleClearFilters`: afterwards every loaded entry is shown. */
    method HandleClearFilters()
      modifies this
      ensures Current() == Cleared && !HasActiveFilters(Current())
      ensures passwords == old(passwords) && showPasswords == old(showPasswords) && sortBy == old(sortBy)
      ensures Filter(passwords, Current()) == passwords
    {
      searchTerm := [];
      selectedCategory := AllCategories;
      showFavorites := false;
      ClearedShowsAll(passwords);
    }
  }

  // ---------------------------------------------------------------------------
  // Saving an entry

  const UserAuthError := "User authentication error"
  const FieldsRequired := "Please fill in all required fields"
  const LogInAgain := "Authentication error. Please log in again."

  /** The body of the POST or PUT request. */
  datatype Payload = Payload(
    userId: nat,
    masterPassword: string,
    salt: string,
    title: string,
    username: string,
    password: string,
    notes: Option<string>,
    url: string,
    category: string,
    tags: seq<string>,
    favorite: bool,
    expiryDate: string,
    strength: int)

  /** PUT to the edited entry's id, or POST a new one. */
  datatype Request = Post(data: Payload) | Put(id: nat, data: Payload)

  /** Every value a save needs is present. */
  predicate ReadyToSave(user: Option<Session.User>, form: PasswordDialog.Form, masterPassword: string, salt: string) {
    user.Some? && user.value.id != 0 && form.title != [] && form.password != [] && masterPassword != [] && salt != []
  }

  /**
   * `handleSavePassword` up to the request: three guards in order, each
   * reporting its own error, then the payload with the password (and the
   * notes, when there are any) encrypted under the vault key. The two IVs
   * are the fresh random values `encrypt` draws.
   */
  method HandleSavePassword(user: Option<Session.User>, form: PasswordDialog.Form, masterPassword: string, salt: string,
                            editing: Option<Item>, pbkdf2: Pbkdf2Call -> seq<byte>,
                            enc: ClientCrypto.Encryptor, passwordIv: seq<byte>, notesIv: seq<byte>)
    returns (r: Result<Request>)
    requires |passwordIv| == 16 && |notesIv| == 16
    ensures r.Ok? <==> ReadyToSave(user, form, masterPassword, salt)
    ensures (user.None? || user.value.id == 0) ==> r == Err(UserAuthError)
    ensures user.Some? && user.value.id != 0 && (form.title == [] || form.password == []) ==> r == Err(FieldsRequired)
    ensures user.Some? && user.value.id != 0 && form.title != [] && form.password != [] && (masterPassword == [] || salt == []) ==> r == Err(LogInAgain)
    ensures r.Ok? ==> (editing.Some? <==> r.value.Put?) && (editing.Some? ==> r.value.id == editing.value.id)
    ensures r.Ok? ==> SentPayload(r.value.data, user.value, form, masterPassword, salt, pbkdf2, enc, passwordIv, notesIv)
  {
    if user.None? || user.value.id == 0 {
      return Err(UserAuthError);
    }
    if form.title == [] || form.password == [] {
      return Err(FieldsRequired);
    }
    if masterPassword == [] || salt == [] {
      return Err(LogInAgain);
    }
    var derived := ClientCrypto.DeriveKey(masterPassword, salt, pbkdf2);
    var key := derived.value;
    var notes := if form.notes != [] then Some(ClientCrypto.Encrypt(form.notes, key, notesIv, enc)) else None;
    var data := Payload(user.value.id, masterPassword, salt, form.title, form.username,
                        ClientCrypto.Encrypt(form.password, key, passwordIv, enc), notes,
                        form.url, form.category, form.tags, form.favorite, form.expiryDate, form.strength);
    if editing.Some? {
      r := Ok(Put(editing.value.id, data));
    } else {
      r := Ok(Post(data));
    }
  }

  /**
   * The payload carries the form's fields, with the password and notes
   * (when non-empty) as blobs that decrypt under the vault key derived from
   * the session's master password and salt.
   */
  predicate SentPayload(data: Payload, user: Session.User, form: PasswordDialog.Form, masterPassword: string, salt: string,
                        pbkdf2: Pbkdf2Call -> seq<byte>, enc: ClientCrypto.Encryptor, passwordIv: seq<byte>, notesIv: seq<byte>)
    requires |passwordIv| == 16 && |notesIv| == 16
  {
    var key := pbkdf2(ClientCrypto.ClientCall(masterPassword, salt));
    data.userId == user.id && data.masterPassword == masterPassword && data.salt == salt
    && data.title == form.title && data.username == form.username
    && data.password == ClientCrypto.Encrypt(form.password, key, passwordIv, enc)
    && (form.notes == [] <==> data.notes.None?)
    && (form.notes != [] ==> data.notes == Some(ClientCrypto.Encrypt(form.notes, key, notesIv, enc)))
    && data.url == form.url && data.category == form.category && data.tags == form.tags
    && data.favorite == form.favorite && data.expiryDate == form.expiryDate && data.strength == form.strength
  }

  /** A session restored without its master password cannot save, whatever the form holds. */
  lemma RestoredSessionCannotSave(user: Session.User, form: PasswordDialog.Form, salt: string)
    ensures !ReadyToSave(Some(user), form, [], salt)
  {
  }

  /** The password sent decrypts, under the same session's key, to what the form held. */
  lemma SentPasswordDecrypts(data: Payload, user: Session.User, form: PasswordDialog.Form, masterPassword: string, salt: string,
                             pbkdf2: Pbkdf2Call -> seq<byte>, enc: ClientCrypto.Encryptor, dec: ClientCrypto.Decryptor,
                             passwordIv: seq<byte>, notesIv: seq<byte>)
    requires |passwordIv| == 16 && |notesIv| == 16
    requires masterPassword != [] && salt != []
    requires SentPayload(data, user, form, masterPassword, salt, pbkdf2, enc, passwordIv, notesIv)
    requires forall k: seq<byte>, iv: seq<byte>, text: string :: ':' !in enc(k, iv, text) && dec(k, HexEncode(iv), enc(k, iv, text)) == Ok(text)
    ensures ClientCrypto.Decrypt(data.password, ClientCrypto.DeriveKey(masterPassword, salt, pbkdf2).value, dec) == Ok(form.password)
  {
    var key := pbkdf2(ClientCrypto.ClientCall(masterPassword, salt));
    ClientCrypto.RoundTrip(form.password, key, passwordIv, enc, dec);
  }

  // ---------------------------------------------------------------------------
  // Other handlers

  /** `handleVisitUrl`: the address opened, with 'https://' prefixed unless the url starts with 'http'. */
  function VisitUrl(url: string): (full: string)
    ensures StartsWith(full, "http")
    ensures StartsWith(url, "http") ==> full == url
    ensures !StartsWith(url, "http") ==> full == "https://" + url
  {
    if StartsWith(url, "http") then url else "https://" + url
  }

  /** Opening an already-opened address opens it unchanged. */
  lemma VisitUrlIdempotent(url: string)
    ensures VisitUrl(VisitUrl(url)) == VisitUrl(url)
  {
  }

  /**
   * `handleReEnterMasterPassword`: a master password that is not blank after
   * trimming is stored as typed (untrimmed) through `login`, which unlocks the session.
   */
  method HandleReEnterMasterPassword(session: Session.AuthState, input: string) returns (accepted: bool)
    requires session.user.Some?
    modifies session
    ensures accepted <==> Trim(input) != []
    ensures accepted ==> session.masterPassword == input && session.isAuthenticated
                         && session.user == old(session.user) && session.salt == old(session.salt)
    ensures accepted && session.salt != [] ==> session.CanUnlock()
    ensures !accepted ==> session.user == old(session.user) && session.salt == old(session.salt)
                          && session.masterPassword == old(session.masterPassword)
                          && session.isAuthenticated == old(session.isAuthenticated)
  {
    accepted := Trim(input) != [];
    if accepted {
      session.Login(session.user.value, session.salt, input);
    }
  }
}
